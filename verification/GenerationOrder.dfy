/** How a world built by requests (shared/src/voxel/World.cpp, lines 440-493) depends on their order. */
module GenerationOrder {
  import opened Prelude
  import opened WorldProfile
  import opened PoiGrid
  import opened ChunkStore
  import opened PoiStamps
  import opened WorldReference
  import opened VoxelWorld

  /** A chunk and the height it is asked for with. */
  type Request = (ChunkCoord, int)

  ghost predicate IsRun(profile: Profile, noise: Noise, requests: seq<Request>, views: seq<Loading>) {
    && |views| == |requests| + 1
    && forall i :: 0 <= i < |requests| ==> Requested(profile, noise, views[i], views[i + 1], requests[i].0, requests[i].1)
  }

  /** The greatest height asked for, from a top on. */
  function TopAfter(top: int, requests: seq<Request>): int {
    if requests == [] then top else Raised(TopAfter(top, requests[..|requests| - 1]), requests[|requests| - 1].1)
  }

  ghost predicate FirstAt(requests: seq<Request>, i: nat, k: ChunkCoord) {
    i < |requests| && requests[i].0 == k && forall j :: 0 <= j < i ==> requests[j].0 != k
  }

  lemma {:induction false} RunRaisesTop(profile: Profile, noise: Noise, requests: seq<Request>, views: seq<Loading>, n: nat)
    requires IsRun(profile, noise, requests, views) && n <= |requests|
    ensures views[n].top == TopAfter(views[0].top, requests[..n])
  {
    if n > 0 {
      RunRaisesTop(profile, noise, requests, views, n - 1);
      assert Requested(profile, noise, views[n - 1], views[n], requests[n - 1].0, requests[n - 1].1);
      assert requests[..n][..n - 1] == requests[..n - 1];
    }
  }

  lemma {:induction false} NotRequestedNotLoaded(profile: Profile, noise: Noise, requests: seq<Request>, views: seq<Loading>, n: nat, k: ChunkCoord)
    requires IsRun(profile, noise, requests, views) && n <= |requests|
    requires k !in views[0].picture && forall j :: 0 <= j < n ==> requests[j].0 != k
    ensures k !in views[n].picture
  {
    if n > 0 {
      NotRequestedNotLoaded(profile, noise, requests, views, n - 1, k);
      assert Requested(profile, noise, views[n - 1], views[n], requests[n - 1].0, requests[n - 1].1);
    }
  }

  lemma {:induction false} LoadedStays(profile: Profile, noise: Noise, requests: seq<Request>, views: seq<Loading>, m: nat, n: nat, k: ChunkCoord)
    requires IsRun(profile, noise, requests, views) && m <= n <= |requests| && k in views[m].picture
    ensures k in views[n].picture && views[n].picture[k] == views[m].picture[k]
  {
    if m < n {
      LoadedStays(profile, noise, requests, views, m, n - 1, k);
      assert Requested(profile, noise, views[n - 1], views[n], requests[n - 1].0, requests[n - 1].1);
    }
  }

  /** A chunk is for good what its first request made it, under the greatest height asked for until then. */
  lemma FirstRequestDecides(profile: Profile, noise: Noise, requests: seq<Request>, views: seq<Loading>, i: nat, k: ChunkCoord)
    requires IsRun(profile, noise, requests, views) && FirstAt(requests, i, k) && k !in views[0].picture
    ensures var last := views[|requests|].picture;
            && k in last && Generated(Gen(profile, noise, TopAfter(views[0].top, requests[..i + 1])), k, last[k])
  {
    hide Generated;
    NotRequestedNotLoaded(profile, noise, requests, views, i, k);
    assert Requested(profile, noise, views[i], views[i + 1], requests[i].0, requests[i].1);
    RunRaisesTop(profile, noise, requests, views, i + 1);
    LoadedStays(profile, noise, requests, views, i + 1, |requests|, k);
  }

  // ---------------------------------------------------------------------------------------------
  // All orders of a table of requests
  // ---------------------------------------------------------------------------------------------

  /** An order in which every chunk of the table is asked for once. */
  ghost predicate Orders(order: seq<ChunkCoord>, wanted: map<ChunkCoord, int>) {
    && (forall k :: k in order <==> k in wanted)
    && (forall i, j :: 0 <= i < j < |order| ==> order[i] != order[j])
  }

  function Requests(order: seq<ChunkCoord>, wanted: map<ChunkCoord, int>): seq<Request> {
    seq(|order|, i requires 0 <= i < |order| => (order[i], Get(wanted, order[i], 0)))
  }

  /** The height under which the i-th chunk of an order is generated. */
  function TopAt(top: int, order: seq<ChunkCoord>, wanted: map<ChunkCoord, int>, i: nat): int
    requires i < |order|
  {
    TopAfter(top, Requests(order, wanted)[..i + 1])
  }

  /** Every chunk is generated under the same height in all orders. */
  ghost predicate OrderIsIrrelevant(top: int, wanted: map<ChunkCoord, int>) {
    forall a, b, i: nat, j: nat :: Orders(a, wanted) && Orders(b, wanted) && i < |a| && j < |b| && a[i] == b[j] ==>
      TopAt(top, a, wanted, i) == TopAt(top, b, wanted, j)
  }

  /** All requests raise the top alike. */
  ghost predicate SameRaise(top: int, wanted: map<ChunkCoord, int>) {
    forall j, k :: j in wanted && k in wanted ==> Raised(top, wanted[j]) == Raised(top, wanted[k])
  }

  lemma TopAtRaises(top: int, order: seq<ChunkCoord>, wanted: map<ChunkCoord, int>, i: nat)
    requires Orders(order, wanted) && i < |order|
    ensures order[i] in wanted
    ensures TopAt(top, order, wanted, i) == Raised(if i == 0 then top else TopAt(top, order, wanted, i - 1), wanted[order[i]])
  {
    var requests := Requests(order, wanted);
    assert order[i] in order;
    assert requests[..i + 1][..i] == requests[..i];
    assert requests[..i + 1][i] == (order[i], wanted[order[i]]);
    assert TopAfter(top, requests[..i]) == if i == 0 then top else TopAt(top, order, wanted, i - 1);
    assert TopAfter(top, requests[..i + 1]) == Raised(TopAfter(top, requests[..i + 1][..i]), requests[..i + 1][i].1);
  }

  lemma {:induction false} AlikeTops(top: int, order: seq<ChunkCoord>, wanted: map<ChunkCoord, int>, i: nat)
    requires Orders(order, wanted) && SameRaise(top, wanted) && i < |order|
    ensures order[i] in wanted && TopAt(top, order, wanted, i) == Raised(top, wanted[order[i]])
  {
    TopAtRaises(top, order, wanted, i);
    if i > 0 { AlikeTops(top, order, wanted, i - 1); }
  }

  lemma {:induction false} SomeOrder(s: set<ChunkCoord>) returns (order: seq<ChunkCoord>)
    ensures forall k :: k in order <==> k in s
    ensures forall i, j :: 0 <= i < j < |order| ==> order[i] != order[j]
    decreases s
  {
    if s == {} {
      order := [];
    } else {
      var k :| k in s;
      var rest := SomeOrder(s - {k});
      order := [k] + rest;
      assert forall i :: 0 <= i < |rest| ==> rest[i] in rest;
    }
  }

  /** If j alone raises the top less than k does, it matters whether k comes first. */
  lemma FirstComerMatters(top: int, wanted: map<ChunkCoord, int>, j: ChunkCoord, k: ChunkCoord)
    requires j in wanted && k in wanted && Raised(top, wanted[j]) < Raised(top, wanted[k])
    ensures !OrderIsIrrelevant(top, wanted)
  {
    var rest := SomeOrder(wanted.Keys - {j, k});
    var a, b := [j, k] + rest, [k, j] + rest;
    assert forall i :: 0 <= i < |rest| ==> rest[i] in rest;
    assert Orders(a, wanted) && Orders(b, wanted);
    assert a[0] == b[1] == j;
    TopAtRaises(top, a, wanted, 0);
    TopAtRaises(top, b, wanted, 0);
    TopAtRaises(top, b, wanted, 1);
    assert TopAt(top, a, wanted, 0) < TopAt(top, b, wanted, 1);
  }

  /** The order of requests is irrelevant exactly when they all raise the top alike, as equal heights do. */
  lemma OrderMattersExactly(top: int, wanted: map<ChunkCoord, int>)
    ensures OrderIsIrrelevant(top, wanted) <==> SameRaise(top, wanted)
  {
    if SameRaise(top, wanted) {
      forall a, b, i: nat, j: nat | Orders(a, wanted) && Orders(b, wanted) && i < |a| && j < |b| && a[i] == b[j]
        ensures TopAt(top, a, wanted, i) == TopAt(top, b, wanted, j)
      {
        AlikeTops(top, a, wanted, i);
        AlikeTops(top, b, wanted, j);
      }
    } else {
      var j, k :| j in wanted && k in wanted && Raised(top, wanted[j]) != Raised(top, wanted[k]);
      if Raised(top, wanted[j]) < Raised(top, wanted[k]) {
        FirstComerMatters(top, wanted, j, k);
      } else {
        FirstComerMatters(top, wanted, k, j);
      }
    }
  }

  lemma OrderedRequest(profile: Profile, noise: Noise, wanted: map<ChunkCoord, int>, order: seq<ChunkCoord>, views: seq<Loading>, k: ChunkCoord)
    returns (i: nat)
    requires Orders(order, wanted) && IsRun(profile, noise, Requests(order, wanted), views)
    requires k in wanted && k !in views[0].picture
    ensures i < |order| && order[i] == k
    ensures var last := views[|order|].picture;
            && k in last && Generated(Gen(profile, noise, TopAt(views[0].top, order, wanted, i)), k, last[k])
  {
    hide Generated;
    i :| 0 <= i < |order| && order[i] == k;
    FirstRequestDecides(profile, noise, Requests(order, wanted), views, i, k);
  }

  /** Then any two orders end in the same blocks. */
  lemma SameWorldInAnyOrder(profile: Profile, noise: Noise, wanted: map<ChunkCoord, int>,
                            a: seq<ChunkCoord>, b: seq<ChunkCoord>, left: seq<Loading>, right: seq<Loading>, k: ChunkCoord)
    requires Sane(profile) && Orders(a, wanted) && Orders(b, wanted)
    requires IsRun(profile, noise, Requests(a, wanted), left) && IsRun(profile, noise, Requests(b, wanted), right)
    requires left[0] == right[0] && SameRaise(left[0].top, wanted)
    requires k in wanted && k !in left[0].picture
    ensures k in left[|a|].picture && k in right[|b|].picture && left[|a|].picture[k] == right[|b|].picture[k]
  {
    hide Generated, Orders, TopAfter;
    assert |left| == |a| + 1 && |right| == |b| + 1;
    hide IsRun;
    var i := OrderedRequest(profile, noise, wanted, a, left, k);
    var j := OrderedRequest(profile, noise, wanted, b, right, k);
    OrderMattersExactly(left[0].top, wanted);
    assert TopAt(left[0].top, a, wanted, i) == TopAt(left[0].top, b, wanted, j);
    GeneratedIsUnique(Gen(profile, noise, TopAt(left[0].top, a, wanted, i)), k, left[|a|].picture[k], right[|b|].picture[k]);
  }
}
