/**
  How a ghost picks among its candidate directions: the first candidate
  that brings it closest to Pac-Man (chase), the first that takes it
  farthest away (flee), or the one a uniform draw selects.
*/
module Choice {
  import opened Wrappers
  import opened Grid

  /** Distance to Pac-Man from the cell each candidate leads to. */
  function Distances(cands: seq<Direction>, gx: int, gy: int, px: int, py: int): (ds: seq<int>)
    ensures |ds| == |cands|
    ensures forall i :: 0 <= i < |ds| ==> ds[i] >= 0
  {
    seq(|cands|, i requires 0 <= i < |cands| => Distance(gx + cands[i].DX(), gy + cands[i].DY(), px, py))
  }

  /** k is the first position holding the smallest value of s. */
  predicate IsFirstMin(s: seq<int>, k: int) {
    && 0 <= k < |s|
    && (forall j :: 0 <= j < |s| ==> s[k] <= s[j])
    && (forall j :: 0 <= j < k ==> s[k] < s[j])
  }

  /** k is the first position holding the largest value of s. */
  predicate IsFirstMax(s: seq<int>, k: int) {
    && 0 <= k < |s|
    && (forall j :: 0 <= j < |s| ==> s[j] <= s[k])
    && (forall j :: 0 <= j < k ==> s[j] < s[k])
  }

  lemma FirstMinIsUnique(s: seq<int>, a: int, b: int)
    requires IsFirstMin(s, a) && IsFirstMin(s, b)
    ensures a == b
  {
    var sa, sb := s[a], s[b];
    assert a < b ==> sb < sa;
    assert b < a ==> sa < sb;
  }

  lemma FirstMaxIsUnique(s: seq<int>, a: int, b: int)
    requires IsFirstMax(s, a) && IsFirstMax(s, b)
    ensures a == b
  {
    var sa, sb := s[a], s[b];
    assert a < b ==> sa < sb;
    assert b < a ==> sb < sa;
  }

  /** The first minimum, scanning left to right with a strict comparison. */
  function ArgMinFirst(s: seq<int>): (k: nat)
    requires |s| > 0
    ensures IsFirstMin(s, k)
    decreases |s|
  {
    if |s| == 1 then 0
    else
      var k := ArgMinFirst(s[..|s| - 1]);
      if s[|s| - 1] < s[k] then |s| - 1 else k
  }

  /** The first maximum, scanning left to right with a strict comparison. */
  function ArgMaxFirst(s: seq<int>): (k: nat)
    requires |s| > 0
    ensures IsFirstMax(s, k)
    decreases |s|
  {
    if |s| == 1 then 0
    else
      var k := ArgMaxFirst(s[..|s| - 1]);
      if s[|s| - 1] > s[k] then |s| - 1 else k
  }

  /** The chase scan: the running minimum starts at infinity (None), so the
      first candidate is always taken, and a later one replaces it only when
      strictly closer. */
  method Closest(cands: seq<Direction>, gx: int, gy: int, px: int, py: int) returns (best: nat)
    requires |cands| > 0
    ensures IsFirstMin(Distances(cands, gx, gy, px, py), best)
  {
    ghost var ds := Distances(cands, gx, gy, px, py);
    best := 0;
    var minDist: Option<int> := None;
    for i := 0 to |cands|
      invariant best < |cands|
      invariant i == 0 ==> best == 0 && minDist == None
      invariant i > 0 ==> best < i && minDist == Some(ds[best])
      invariant forall j :: 0 <= j < i ==> ds[best] <= ds[j]
      invariant forall j :: 0 <= j < best ==> ds[best] < ds[j]
    {
      var dir := cands[i];
      var dist := Distance(gx + dir.DX(), gy + dir.DY(), px, py);
      assert dist == ds[i];
      if minDist == None || dist < minDist.value {
        minDist := Some(dist);
        best := i;
      }
    }
  }

  /** The flee scan: the running maximum starts at 0, not at minus
      infinity; because distances are never negative the result is still
      the first farthest candidate. */
  method Farthest(cands: seq<Direction>, gx: int, gy: int, px: int, py: int) returns (best: nat)
    requires |cands| > 0
    ensures IsFirstMax(Distances(cands, gx, gy, px, py), best)
  {
    ghost var ds := Distances(cands, gx, gy, px, py);
    best := 0;
    var maxDist := 0;
    for i := 0 to |cands|
      invariant best < |cands| && maxDist >= 0
      invariant i == 0 ==> best == 0 && maxDist == 0
      invariant i > 0 ==> best < i && maxDist == ds[best]
      invariant forall j :: 0 <= j < i ==> ds[j] <= maxDist
      invariant forall j :: 0 <= j < best ==> ds[j] < maxDist
    {
      var dir := cands[i];
      var dist := Distance(gx + dir.DX(), gy + dir.DY(), px, py);
      assert dist == ds[i];
      if dist > maxDist {
        maxDist := dist;
        best := i;
      }
      assert forall j :: 0 <= j < i ==> ds[j] <= maxDist;
    }
  }

  /** `Math.floor(pick * n)`: the index a uniform draw in [0, 1) selects
      among n candidates. */
  function RollIndex(pick: real, n: nat): (k: nat)
    requires 0.0 <= pick < 1.0 && n > 0
    ensures k < n
  {
    var scaled := pick * n as real;
    assert 0.0 <= scaled < n as real by {
      assert pick * n as real < 1.0 * n as real;
    }
    scaled.Floor
  }

  /** Every candidate can be selected: the draw k / n selects index k. */
  lemma RollReachesEveryIndex(k: nat, n: nat)
    requires k < n
    ensures 0.0 <= k as real / n as real < 1.0
    ensures RollIndex(k as real / n as real, n) == k
  {
    var pick := k as real / n as real;
    assert pick * n as real == k as real;
  }

  /** The direction a ghost takes, given its candidates in scan order:
      reverse when there is none; otherwise chase (first closest candidate)
      when the draw says so and power mode is off, flee (first farthest
      candidate) in power mode, and else the candidate the draw selects. */
  function Choose(cands: seq<Direction>, current: Direction, gx: int, gy: int, px: int, py: int,
                  powerMode: bool, chase: bool, pick: real): (d: Direction)
    requires 0.0 <= pick < 1.0
    ensures cands == [] ==> d == Reverse(current)
    ensures cands != [] ==> d in cands
  {
    if |cands| == 0 then Reverse(current)
    else
      var ds := Distances(cands, gx, gy, px, py);
      if chase && !powerMode then cands[ArgMinFirst(ds)]
      else if powerMode then cands[ArgMaxFirst(ds)]
      else cands[RollIndex(pick, |cands|)]
  }

  /** The direction choice of `moveGhosts`, from the candidate list on. */
  method PickDirection(cands: seq<Direction>, current: Direction, gx: int, gy: int, px: int, py: int,
                       powerMode: bool, chase: bool, pick: real) returns (dir: Direction)
    requires 0.0 <= pick < 1.0
    ensures dir == Choose(cands, current, gx, gy, px, py, powerMode, chase, pick)
  {
    ghost var ds := Distances(cands, gx, gy, px, py);
    if |cands| == 0 {
      dir := Reverse(current);
    } else if chase && !powerMode {
      var best := Closest(cands, gx, gy, px, py);
      FirstMinIsUnique(ds, best, ArgMinFirst(ds));
      dir := cands[best];
    } else if powerMode {
      var best := Farthest(cands, gx, gy, px, py);
      FirstMaxIsUnique(ds, best, ArgMaxFirst(ds));
      dir := cands[best];
    } else {
      dir := cands[RollIndex(pick, |cands|)];
    }
  }
}
