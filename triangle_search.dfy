/** The specification of the triangle index search: which groups of three
    indices the scan reads, what it holds while reading them, and which of
    them it adds, both as written and in the per-triangle reading. */
module TriangleSearch {
  import opened Numerics

  datatype TriangleSearchType = All | Any | None

  //
  // The scan reads the stream in groups of three. Group k is the indices
  // s[3k .. 3k+3], the last group possibly shorter. Its decision is taken from
  // the flags `hadGoodIndex` and `hadBadIndex` when the next group starts (or
  // after the stream ends), and the three values of `currentTriangle` are
  // added. A short last group overwrites only the first entries of
  // `currentTriangle`; the others still hold the previous group's values.

  predicate InRange(x: int32, startIndex: int32, endIndex: int32) {
    startIndex <= x <= endIndex
  }

  /** The number of groups the scan reads from `n` indices. */
  function GroupCount(n: nat): nat {
    (n + 2) / 3
  }

  /** The indices of group `k` that the scan reads. */
  function Seen(s: seq<int32>, k: nat): (r: seq<int32>)
    requires k < GroupCount(|s|)
    ensures 1 <= |r| <= 3
  {
    s[3 * k .. if 3 * k + 3 <= |s| then 3 * k + 3 else |s|]
  }

  /** What `currentTriangle` holds before group `k` is read. */
  function Before(s: seq<int32>, k: nat): (r: seq<int32>)
    requires k < GroupCount(|s|)
    ensures |r| == 3
    decreases k, 0
  {
    if k == 0 then [0, 0, 0] else Held(s, k - 1)
  }

  /** What `currentTriangle` holds once group `k` has been read: its indices,
      then stale entries of the group before when it is short. */
  function Held(s: seq<int32>, k: nat): (r: seq<int32>)
    requires k < GroupCount(|s|)
    ensures |r| == 3
    decreases k, 1
  {
    Seen(s, k) + Before(s, k)[|Seen(s, k)|..]
  }

  /** The doc comment's reading of the search type for one group of indices. */
  predicate Accepts(searchType: TriangleSearchType, g: seq<int32>, startIndex: int32, endIndex: int32) {
    match searchType
    case All => forall x :: x in g ==> InRange(x, startIndex, endIndex)
    case Any => exists x :: x in g && InRange(x, startIndex, endIndex)
    case None => forall x :: x in g ==> !InRange(x, startIndex, endIndex)
  }

  /** How one more index changes the verdict on a group. */
  function Extend(searchType: TriangleSearchType, ok: bool, inRange: bool): bool {
    match searchType
    case All => ok && inRange
    case Any => ok || inRange
    case None => ok && !inRange
  }

  /** The verdict reached by reading the indices of `g` one at a time, from
      the verdict on no index (true, except for `Any`). */
  function Judge(searchType: TriangleSearchType, g: seq<int32>, startIndex: int32, endIndex: int32): bool {
    if |g| == 0 then searchType != Any
    else Extend(searchType, Judge(searchType, g[..|g| - 1], startIndex, endIndex),
                InRange(g[|g| - 1], startIndex, endIndex))
  }

  /** The verdict on a single index. */
  lemma JudgeOne(searchType: TriangleSearchType, g: seq<int32>, startIndex: int32, endIndex: int32)
    requires |g| == 1
    ensures Judge(searchType, g, startIndex, endIndex)
         == Extend(searchType, searchType != Any, InRange(g[0], startIndex, endIndex))
  {
    assert g[..0] == [];
  }

  /** Reading the indices one at a time decides the doc comment's reading. */
  lemma {:induction false} JudgeAccepts(searchType: TriangleSearchType, g: seq<int32>, startIndex: int32, endIndex: int32)
    ensures Judge(searchType, g, startIndex, endIndex) == Accepts(searchType, g, startIndex, endIndex)
  {
    if |g| > 0 {
      var front := g[..|g| - 1];
      JudgeAccepts(searchType, front, startIndex, endIndex);
      assert g == front + [g[|g| - 1]];
      assert forall y :: y in g <==> y in front || y == g[|g| - 1];
    }
  }

  predicate TriangleQualifies(s: seq<int32>, startIndex: int32, endIndex: int32, searchType: TriangleSearchType, k: nat)
    requires k < GroupCount(|s|)
  {
    Judge(searchType, Seen(s, k), startIndex, endIndex)
  }

  /** Group `k` qualifies exactly when it meets the doc comment's reading. */
  lemma TriangleQualifiesAccepts(s: seq<int32>, startIndex: int32, endIndex: int32, searchType: TriangleSearchType,
                                 k: nat)
    requires k < GroupCount(|s|)
    ensures TriangleQualifies(s, startIndex, endIndex, searchType, k)
        <==> Accepts(searchType, Seen(s, k), startIndex, endIndex)
  {
    JudgeAccepts(searchType, Seen(s, k), startIndex, endIndex);
  }

  /** Every one of the first `n` groups qualifies. */
  predicate PrefixQualifies(s: seq<int32>, startIndex: int32, endIndex: int32, searchType: TriangleSearchType, n: nat)
    requires n <= GroupCount(|s|)
  {
    n == 0 || (PrefixQualifies(s, startIndex, endIndex, searchType, n - 1)
               && TriangleQualifies(s, startIndex, endIndex, searchType, n - 1))
  }

  lemma {:induction false} PrefixQualifiesMeaning(s: seq<int32>, startIndex: int32, endIndex: int32,
                                                  searchType: TriangleSearchType, n: nat)
    requires n <= GroupCount(|s|)
    ensures PrefixQualifies(s, startIndex, endIndex, searchType, n)
        <==> forall j :: 0 <= j < n ==> TriangleQualifies(s, startIndex, endIndex, searchType, j)
  {
    if n > 0 {
      PrefixQualifiesMeaning(s, startIndex, endIndex, searchType, n - 1);
    }
  }

  /** Whether group `k` is added. As written, the flags are cleared only when
      a group is added, so in `All` and `None` mode one rejected group keeps
      every later group out; with `perTriangle` the flags are cleared at every
      group, which is the doc comment's reading. */
  predicate Kept(s: seq<int32>, startIndex: int32, endIndex: int32, searchType: TriangleSearchType,
                 perTriangle: bool, k: nat)
    requires k < GroupCount(|s|)
  {
    if perTriangle || searchType == Any then TriangleQualifies(s, startIndex, endIndex, searchType, k)
    else PrefixQualifies(s, startIndex, endIndex, searchType, k + 1)
  }

  /** The indices added for the first `g` groups. */
  function Collected(s: seq<int32>, startIndex: int32, endIndex: int32, searchType: TriangleSearchType,
                     perTriangle: bool, g: nat): seq<int32>
    requires g <= GroupCount(|s|)
  {
    if g == 0 then []
    else
      var previous := Collected(s, startIndex, endIndex, searchType, perTriangle, g - 1);
      if Kept(s, startIndex, endIndex, searchType, perTriangle, g - 1) then previous + Held(s, g - 1) else previous
  }

  lemma CollectedNext(s: seq<int32>, startIndex: int32, endIndex: int32, searchType: TriangleSearchType,
                      perTriangle: bool, k: nat, kept: bool)
    requires k < GroupCount(|s|)
    requires kept == Kept(s, startIndex, endIndex, searchType, perTriangle, k)
    ensures Collected(s, startIndex, endIndex, searchType, perTriangle, k + 1)
         == Collected(s, startIndex, endIndex, searchType, perTriangle, k) + (if kept then Held(s, k) else [])
  {
  }

  /** What the scan accepts so far in the group that starts at `3 * k`, having
      read up to (not including) `i`. */
  predicate WindowOk(s: seq<int32>, startIndex: int32, endIndex: int32, searchType: TriangleSearchType,
                     perTriangle: bool, k: nat, i: nat)
    requires 3 * k < i <= |s| && i <= 3 * k + 3
  {
    && (perTriangle || searchType == Any || PrefixQualifies(s, startIndex, endIndex, searchType, k))
    && Judge(searchType, s[3 * k .. i], startIndex, endIndex)
  }

  /** Reading the first index of the stream. */
  lemma WindowFirst(s: seq<int32>, startIndex: int32, endIndex: int32, searchType: TriangleSearchType,
                    perTriangle: bool)
    requires 0 < |s|
    ensures WindowOk(s, startIndex, endIndex, searchType, perTriangle, 0, 1)
         == Extend(searchType, searchType != Any, InRange(s[0], startIndex, endIndex))
  {
    JudgeOne(searchType, s[0 .. 1], startIndex, endIndex);
  }

  /** Reading one more index of the current group. */
  lemma WindowExtend(s: seq<int32>, startIndex: int32, endIndex: int32, searchType: TriangleSearchType,
                     perTriangle: bool, k: nat, i: nat)
    requires 3 * k < i < |s| && i < 3 * k + 3
    ensures WindowOk(s, startIndex, endIndex, searchType, perTriangle, k, i + 1)
         == Extend(searchType, WindowOk(s, startIndex, endIndex, searchType, perTriangle, k, i),
                   InRange(s[i], startIndex, endIndex))
  {
    assert s[3 * k .. i + 1][..i - 3 * k] == s[3 * k .. i];
  }

  /** Once group `k` has been read to its end (`i`), the window decides it and
      `currentTriangle` holds it. */
  lemma WindowDecides(s: seq<int32>, startIndex: int32, endIndex: int32, searchType: TriangleSearchType,
                      perTriangle: bool, k: nat, i: nat)
    requires 3 * k < i <= |s| && i <= 3 * k + 3
    requires i == 3 * k + 3 || i == |s|
    ensures k < GroupCount(|s|) && Seen(s, k) == s[3 * k .. i]
    ensures WindowOk(s, startIndex, endIndex, searchType, perTriangle, k, i)
        <==> Kept(s, startIndex, endIndex, searchType, perTriangle, k)
    ensures Held(s, k) == s[3 * k .. i] + Before(s, k)[i - 3 * k ..]
  {
    assert Seen(s, k) == s[3 * k .. i];
  }

  /** Reading the first index of group `k + 1` after group `k` was decided:
      the empty window starts out rejected when group `k` was not kept in
      `All` or `None` mode, unless the flags are cleared per triangle. */
  lemma WindowStart(s: seq<int32>, startIndex: int32, endIndex: int32, searchType: TriangleSearchType,
                    perTriangle: bool, k: nat)
    requires 3 * k + 3 < |s|
    ensures WindowOk(s, startIndex, endIndex, searchType, perTriangle, k + 1, 3 * k + 4)
         == Extend(searchType,
                   searchType != Any && (perTriangle || Kept(s, startIndex, endIndex, searchType, perTriangle, k)),
                   InRange(s[3 * k + 3], startIndex, endIndex))
  {
    WindowDecides(s, startIndex, endIndex, searchType, perTriangle, k, 3 * k + 3);
    JudgeOne(searchType, s[3 * (k + 1) .. 3 * k + 4], startIndex, endIndex);
  }

  /** What the two flags say about the verdict `ok` on the current window. */
  predicate FlagsAgree(searchType: TriangleSearchType, hadGoodIndex: bool, hadBadIndex: bool, ok: bool) {
    match searchType
    case All => hadBadIndex == !ok
    case Any => hadGoodIndex == ok
    case None => hadGoodIndex == !ok
  }

  /** Recording one index in the flags keeps them in step with the verdict,
      and the source's `toBeAdded` expression then reads the verdict off. */
  lemma FlagsStep(searchType: TriangleSearchType, hadGoodIndex: bool, hadBadIndex: bool, ok: bool, inRange: bool)
    requires FlagsAgree(searchType, hadGoodIndex, hadBadIndex, ok)
    ensures FlagsAgree(searchType, hadGoodIndex || inRange, hadBadIndex || !inRange, Extend(searchType, ok, inRange))
    ensures Extend(searchType, ok, inRange)
        == ((searchType == All && !(hadBadIndex || !inRange)) || (searchType == Any && (hadGoodIndex || inRange))
            || (searchType == None && !(hadGoodIndex || inRange)))
  {
  }

  /** What `currentTriangle` holds in group `k` before index `i` is read. */
  function Partial(s: seq<int32>, k: nat, i: nat): (r: seq<int32>)
    requires 3 * k < i <= |s| && i <= 3 * k + 3
    ensures |r| == 3
  {
    s[3 * k .. i] + Before(s, k)[i - 3 * k ..]
  }

  lemma PartialFirst(s: seq<int32>)
    requires 0 < |s|
    ensures [0, 0, 0][0 := s[0]] == Partial(s, 0, 1)
  {
  }

  lemma PartialNext(s: seq<int32>, k: nat, i: nat)
    requires 3 * k < i < |s| && i < 3 * k + 3
    ensures Partial(s, k, i)[i - 3 * k := s[i]] == Partial(s, k, i + 1)
  {
  }

  lemma PartialNewGroup(s: seq<int32>, k: nat)
    requires 3 * k + 3 < |s|
    ensures Partial(s, k, 3 * k + 3) == Held(s, k)
    ensures Held(s, k)[0 := s[3 * k + 3]] == Partial(s, k + 1, 3 * k + 4)
  {
    WindowDecides(s, 0, 0, All, true, k, 3 * k + 3);
  }

  /** The scan's variables between two indices: `k` is the group being read,
      `contained` what the decided groups added, `held` the contents of
      `currentTriangle`, then the two flags and the verdict read off them. */
  datatype ScanState = ScanState(k: nat, contained: seq<int32>, held: seq<int32>,
                                 hadGoodIndex: bool, hadBadIndex: bool, toBeAdded: bool)

  const InitialScan: ScanState := ScanState(0, [], [0, 0, 0], false, false, false)

  /** The verdict the source reads off the two flags. */
  function Verdict(searchType: TriangleSearchType, hadGoodIndex: bool, hadBadIndex: bool): bool {
    (searchType == All && !hadBadIndex) || (searchType == Any && hadGoodIndex) || (searchType == None && !hadGoodIndex)
  }

  /** One turn of the loop on index `i`. When `i` starts a new group the
      previous one is decided: added if the verdict holds, and the flags are
      cleared if it was added (as written) or always (`perTriangle`). */
  function ScanNext(s: seq<int32>, startIndex: int32, endIndex: int32, searchType: TriangleSearchType,
                    perTriangle: bool, i: nat, st: ScanState): (r: ScanState)
    requires i < |s| && |st.held| == 3
    ensures |r.held| == 3
  {
    var decided := i > 0 && i % 3 == 0;
    var cleared := decided && (perTriangle || st.toBeAdded);
    var good := (st.hadGoodIndex && !cleared) || InRange(s[i], startIndex, endIndex);
    var bad := (st.hadBadIndex && !cleared) || !InRange(s[i], startIndex, endIndex);
    ScanState(if decided then st.k + 1 else st.k,
              if decided && st.toBeAdded then st.contained + st.held else st.contained,
              st.held[i % 3 := s[i]], good, bad, Verdict(searchType, good, bad))
  }

  /** What holds of the scan's variables before index `i` is read. */
  predicate ScanInvariant(s: seq<int32>, startIndex: int32, endIndex: int32, searchType: TriangleSearchType,
                          perTriangle: bool, i: nat, st: ScanState)
  {
    if i == 0 then
      st.k == 0 && st.contained == [] && st.held == [0, 0, 0] && !st.hadGoodIndex && !st.hadBadIndex
    else
      && 3 * st.k < i <= |s| && i <= 3 * st.k + 3
      && st.contained == Collected(s, startIndex, endIndex, searchType, perTriangle, st.k)
      && st.held == Partial(s, st.k, i)
      && st.toBeAdded == WindowOk(s, startIndex, endIndex, searchType, perTriangle, st.k, i)
      && FlagsAgree(searchType, st.hadGoodIndex, st.hadBadIndex, st.toBeAdded)
  }

  lemma ScanStepFirst(s: seq<int32>, startIndex: int32, endIndex: int32, searchType: TriangleSearchType,
                      perTriangle: bool, st: ScanState)
    requires 0 < |s|
    requires ScanInvariant(s, startIndex, endIndex, searchType, perTriangle, 0, st)
    ensures ScanInvariant(s, startIndex, endIndex, searchType, perTriangle, 1,
                          ScanNext(s, startIndex, endIndex, searchType, perTriangle, 0, st))
  {
    WindowFirst(s, startIndex, endIndex, searchType, perTriangle);
    PartialFirst(s);
    FlagsStep(searchType, false, false, searchType != Any, InRange(s[0], startIndex, endIndex));
  }

  lemma ScanStepWithin(s: seq<int32>, startIndex: int32, endIndex: int32, searchType: TriangleSearchType,
                       perTriangle: bool, i: nat, st: ScanState)
    requires 0 < i < |s| && i % 3 != 0
    requires ScanInvariant(s, startIndex, endIndex, searchType, perTriangle, i, st)
    ensures ScanInvariant(s, startIndex, endIndex, searchType, perTriangle, i + 1,
                          ScanNext(s, startIndex, endIndex, searchType, perTriangle, i, st))
  {
    assert i < 3 * st.k + 3 && i % 3 == i - 3 * st.k;
    WindowExtend(s, startIndex, endIndex, searchType, perTriangle, st.k, i);
    PartialNext(s, st.k, i);
    FlagsStep(searchType, st.hadGoodIndex, st.hadBadIndex, st.toBeAdded, InRange(s[i], startIndex, endIndex));
  }

  lemma ScanStepDecide(s: seq<int32>, startIndex: int32, endIndex: int32, searchType: TriangleSearchType,
                       perTriangle: bool, i: nat, st: ScanState)
    requires 0 < i < |s| && i % 3 == 0
    requires ScanInvariant(s, startIndex, endIndex, searchType, perTriangle, i, st)
    ensures ScanInvariant(s, startIndex, endIndex, searchType, perTriangle, i + 1,
                          ScanNext(s, startIndex, endIndex, searchType, perTriangle, i, st))
  {
    var k := st.k;
    assert i == 3 * k + 3;
    WindowDecides(s, startIndex, endIndex, searchType, perTriangle, k, i);
    CollectedNext(s, startIndex, endIndex, searchType, perTriangle, k, st.toBeAdded);
    WindowStart(s, startIndex, endIndex, searchType, perTriangle, k);
    PartialNewGroup(s, k);
    var cleared := perTriangle || st.toBeAdded;
    FlagsStep(searchType, st.hadGoodIndex && !cleared, st.hadBadIndex && !cleared,
              searchType != Any && cleared, InRange(s[i], startIndex, endIndex));
  }

  /** One turn of the loop keeps `ScanInvariant`. */
  lemma ScanStep(s: seq<int32>, startIndex: int32, endIndex: int32, searchType: TriangleSearchType,
                 perTriangle: bool, i: nat, st: ScanState)
    requires i < |s|
    requires ScanInvariant(s, startIndex, endIndex, searchType, perTriangle, i, st)
    ensures |st.held| == 3
    ensures ScanInvariant(s, startIndex, endIndex, searchType, perTriangle, i + 1,
                          ScanNext(s, startIndex, endIndex, searchType, perTriangle, i, st))
  {
    if i == 0 {
      ScanStepFirst(s, startIndex, endIndex, searchType, perTriangle, st);
    } else if i % 3 == 0 {
      ScanStepDecide(s, startIndex, endIndex, searchType, perTriangle, i, st);
    } else {
      ScanStepWithin(s, startIndex, endIndex, searchType, perTriangle, i, st);
    }
  }

  /** The scan's variables once the first `i` indices have been read. */
  function ScanRun(s: seq<int32>, startIndex: int32, endIndex: int32, searchType: TriangleSearchType,
                   perTriangle: bool, i: nat): (r: ScanState)
    requires i <= |s|
    ensures |r.held| == 3
  {
    if i == 0 then InitialScan
    else ScanNext(s, startIndex, endIndex, searchType, perTriangle, i - 1,
                  ScanRun(s, startIndex, endIndex, searchType, perTriangle, i - 1))
  }

  /** What the scan returns: the groups it added, then the final group when
      the stream is not empty and the final verdict holds. */
  function ScanOutput(s: seq<int32>, startIndex: int32, endIndex: int32, searchType: TriangleSearchType,
                      perTriangle: bool): seq<int32>
  {
    var st := ScanRun(s, startIndex, endIndex, searchType, perTriangle, |s|);
    if |s| > 0 && st.toBeAdded then st.contained + st.held else st.contained
  }

  lemma {:induction false} ScanRunInvariant(s: seq<int32>, startIndex: int32, endIndex: int32,
                                            searchType: TriangleSearchType, perTriangle: bool, i: nat)
    requires i <= |s|
    ensures ScanInvariant(s, startIndex, endIndex, searchType, perTriangle, i,
                          ScanRun(s, startIndex, endIndex, searchType, perTriangle, i))
  {
    if i > 0 {
      var previous := ScanRun(s, startIndex, endIndex, searchType, perTriangle, i - 1);
      ScanRunInvariant(s, startIndex, endIndex, searchType, perTriangle, i - 1);
      ScanStep(s, startIndex, endIndex, searchType, perTriangle, i - 1, previous);
      assert ScanRun(s, startIndex, endIndex, searchType, perTriangle, i)
          == ScanNext(s, startIndex, endIndex, searchType, perTriangle, i - 1, previous);
    }
  }

  /** After the last index the final group is decided: what the scan holds,
      plus the final group when it is added, is every group that is kept. */
  lemma ScanFinish(s: seq<int32>, startIndex: int32, endIndex: int32, searchType: TriangleSearchType,
                   perTriangle: bool, st: ScanState)
    requires ScanInvariant(s, startIndex, endIndex, searchType, perTriangle, |s|, st)
    ensures (if |s| > 0 && st.toBeAdded then st.contained + st.held else st.contained)
         == Collected(s, startIndex, endIndex, searchType, perTriangle, GroupCount(|s|))
  {
    if |s| > 0 {
      WindowDecides(s, startIndex, endIndex, searchType, perTriangle, st.k, |s|);
      CollectedNext(s, startIndex, endIndex, searchType, perTriangle, st.k, st.toBeAdded);
      assert st.k + 1 == GroupCount(|s|);
    }
  }

  /** The scan computes `Collected`. */
  lemma ScanComputesCollected(s: seq<int32>, startIndex: int32, endIndex: int32,
                              searchType: TriangleSearchType, perTriangle: bool)
    ensures ScanOutput(s, startIndex, endIndex, searchType, perTriangle)
         == Collected(s, startIndex, endIndex, searchType, perTriangle, GroupCount(|s|))
  {
    ScanRunInvariant(s, startIndex, endIndex, searchType, perTriangle, |s|);
    ScanFinish(s, startIndex, endIndex, searchType, perTriangle,
               ScanRun(s, startIndex, endIndex, searchType, perTriangle, |s|));
  }

  // ---------------------------------------------------------------------------
  // Properties of the search

  /** The result is made of whole groups of three, and an empty stream gives
      an empty result. */
  lemma {:induction false} CollectedShape(s: seq<int32>, startIndex: int32, endIndex: int32,
                                          searchType: TriangleSearchType, perTriangle: bool, g: nat)
    requires g <= GroupCount(|s|)
    ensures |Collected(s, startIndex, endIndex, searchType, perTriangle, g)| % 3 == 0
    ensures |Collected(s, startIndex, endIndex, searchType, perTriangle, g)| <= 3 * g
    ensures |s| == 0 ==> Collected(s, startIndex, endIndex, searchType, perTriangle, g) == []
  {
    if g > 0 {
      CollectedShape(s, startIndex, endIndex, searchType, perTriangle, g - 1);
    }
  }

  /** In `Any` mode the search as written is the per-triangle search: a
      rejected triangle had no index in range, so it leaves no flag set. */
  lemma {:induction false} AnyIsPerTriangle(s: seq<int32>, startIndex: int32, endIndex: int32, g: nat)
    requires g <= GroupCount(|s|)
    ensures Collected(s, startIndex, endIndex, Any, false, g) == Collected(s, startIndex, endIndex, Any, true, g)
  {
    if g > 0 {
      AnyIsPerTriangle(s, startIndex, endIndex, g - 1);
    }
  }

  /** With whole triangles only, `currentTriangle` holds exactly the group. */
  lemma HeldWhole(s: seq<int32>, k: nat)
    requires |s| % 3 == 0 && k < GroupCount(|s|)
    ensures 3 * k + 3 <= |s| && Held(s, k) == s[3 * k .. 3 * k + 3]
  {
  }

  predicate AllInRange(s: seq<int32>, startIndex: int32, endIndex: int32) {
    forall i :: 0 <= i < |s| ==> InRange(s[i], startIndex, endIndex)
  }

  /** A whole group of in-range indices qualifies for `All` and not for `None`. */
  lemma GroupInRange(s: seq<int32>, startIndex: int32, endIndex: int32, j: nat)
    requires |s| % 3 == 0 && j < GroupCount(|s|)
    requires AllInRange(s, startIndex, endIndex)
    ensures TriangleQualifies(s, startIndex, endIndex, All, j)
    ensures !TriangleQualifies(s, startIndex, endIndex, None, j)
  {
    HeldWhole(s, j);
    TriangleQualifiesAccepts(s, startIndex, endIndex, All, j);
    TriangleQualifiesAccepts(s, startIndex, endIndex, None, j);
    assert Seen(s, j)[0] in Seen(s, j);
  }

  /** When every index is in range, `All` keeps every triangle, in both
      readings. */
  lemma {:induction false} AllKeepsEveryTriangle(s: seq<int32>, startIndex: int32, endIndex: int32,
                                                 perTriangle: bool, g: nat)
    requires |s| % 3 == 0 && g <= GroupCount(|s|)
    requires AllInRange(s, startIndex, endIndex)
    ensures 3 * g <= |s|
    ensures Collected(s, startIndex, endIndex, All, perTriangle, g) == s[.. 3 * g]
  {
    if g > 0 {
      AllKeepsEveryTriangle(s, startIndex, endIndex, perTriangle, g - 1);
      HeldWhole(s, g - 1);
      forall j | 0 <= j < g
        ensures TriangleQualifies(s, startIndex, endIndex, All, j)
      {
        GroupInRange(s, startIndex, endIndex, j);
      }
      PrefixQualifiesMeaning(s, startIndex, endIndex, All, g);
      assert Kept(s, startIndex, endIndex, All, perTriangle, g - 1);
      assert s[.. 3 * g] == s[.. 3 * (g - 1)] + s[3 * (g - 1) .. 3 * g];
    }
  }

  /** When every index is in range, `None` keeps no triangle, in both
      readings. */
  lemma {:induction false} NoneKeepsNoTriangle(s: seq<int32>, startIndex: int32, endIndex: int32,
                                               perTriangle: bool, g: nat)
    requires |s| % 3 == 0 && g <= GroupCount(|s|)
    requires AllInRange(s, startIndex, endIndex)
    ensures Collected(s, startIndex, endIndex, None, perTriangle, g) == []
  {
    if g > 0 {
      NoneKeepsNoTriangle(s, startIndex, endIndex, perTriangle, g - 1);
      GroupInRange(s, startIndex, endIndex, g - 1);
      assert !Kept(s, startIndex, endIndex, None, perTriangle, g - 1);
    }
  }

  /** The number of leading groups that qualify on their own. */
  function QualifyingPrefix(s: seq<int32>, startIndex: int32, endIndex: int32, searchType: TriangleSearchType,
                            g: nat): (p: nat)
    requires g <= GroupCount(|s|)
    ensures p <= g
  {
    if g == 0 then 0
    else
      var p := QualifyingPrefix(s, startIndex, endIndex, searchType, g - 1);
      if p == g - 1 && TriangleQualifies(s, startIndex, endIndex, searchType, g - 1) then g else p
  }

  /** The first `QualifyingPrefix` groups qualify, and the group after them
      (if any) does not. */
  lemma {:induction false} QualifyingPrefixMeaning(s: seq<int32>, startIndex: int32, endIndex: int32,
                                                   searchType: TriangleSearchType, g: nat)
    requires g <= GroupCount(|s|)
    ensures var p := QualifyingPrefix(s, startIndex, endIndex, searchType, g);
            && (forall j :: 0 <= j < p ==> TriangleQualifies(s, startIndex, endIndex, searchType, j))
            && (p < g ==> !TriangleQualifies(s, startIndex, endIndex, searchType, p))
  {
    if g > 0 {
      QualifyingPrefixMeaning(s, startIndex, endIndex, searchType, g - 1);
    }
  }

  /** All of the first `g` groups qualify exactly when the qualifying prefix
      is all of them. */
  lemma {:induction false} QualifyingPrefixWhole(s: seq<int32>, startIndex: int32, endIndex: int32,
                                                 searchType: TriangleSearchType, g: nat)
    requires g <= GroupCount(|s|)
    ensures QualifyingPrefix(s, startIndex, endIndex, searchType, g) == g
        <==> PrefixQualifies(s, startIndex, endIndex, searchType, g)
  {
    if g > 0 {
      QualifyingPrefixWhole(s, startIndex, endIndex, searchType, g - 1);
    }
  }

  /** As written, `All` and `None` return the longest run of leading
      triangles that qualify, and nothing after the first rejected one. */
  lemma {:induction false} AsWrittenIsLongestPrefix(s: seq<int32>, startIndex: int32, endIndex: int32,
                                                    searchType: TriangleSearchType, g: nat)
    requires searchType != Any
    requires |s| % 3 == 0 && g <= GroupCount(|s|)
    ensures 3 * g <= |s|
    ensures Collected(s, startIndex, endIndex, searchType, false, g)
         == s[.. 3 * QualifyingPrefix(s, startIndex, endIndex, searchType, g)]
  {
    if g > 0 {
      AsWrittenIsLongestPrefix(s, startIndex, endIndex, searchType, g - 1);
      QualifyingPrefixWhole(s, startIndex, endIndex, searchType, g);
      var p := QualifyingPrefix(s, startIndex, endIndex, searchType, g - 1);
      if Kept(s, startIndex, endIndex, searchType, false, g - 1) {
        assert p == g - 1;
        HeldWhole(s, g - 1);
        assert s[.. 3 * g] == s[.. 3 * (g - 1)] + s[3 * (g - 1) .. 3 * g];
      }
    }
  }

  /** The doc comment's per-triangle reading fails for `All` as written: with
      range [0, 0], the stream 5 0 0 | 0 0 0 loses its second triangle, which
      lies wholly in range, because the first one was rejected. */
  lemma AllRejectsAfterFirstRejection()
    ensures Collected([5, 0, 0, 0, 0, 0], 0, 0, All, false, 2) == []
    ensures Collected([5, 0, 0, 0, 0, 0], 0, 0, All, true, 2) == [0, 0, 0]
  {
    var s: seq<int32> := [5, 0, 0, 0, 0, 0];
    assert Seen(s, 0) == [5, 0, 0] && Held(s, 0) == [5, 0, 0];
    assert Seen(s, 1) == [0, 0, 0] && Held(s, 1) == [0, 0, 0];
    TriangleQualifiesAccepts(s, 0, 0, All, 0);
    TriangleQualifiesAccepts(s, 0, 0, All, 1);
    assert 5 in Seen(s, 0) && !InRange(5, 0, 0);
    assert !TriangleQualifies(s, 0, 0, All, 0);
    assert TriangleQualifies(s, 0, 0, All, 1);
    assert !Kept(s, 0, 0, All, false, 1);
    assert Collected(s, 0, 0, All, false, 1) == [];
    assert Collected(s, 0, 0, All, true, 1) == [];
  }
}
