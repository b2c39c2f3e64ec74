/** server/src/CombatSimulation.cpp, lines 330-380: who a shot hits. */
module Raycast {
  import opened Prelude
  import opened Movement
  import Ids

  datatype Fire = Fire(attacker: nat, shotSeq: nat, weaponId: string, originX: real, originY: real, dirX: real, dirY: real)

  datatype Fighter = Fighter(health: int, alive: bool, lastShotSeq: nat)

  datatype RayHit = RayHit(victim: nat, distance: real)

  const DIRECTION_EPSILON := 0.000001
  const TIE_TOLERANCE := 0.000001

  type Positions = map<nat, (real, real)>

  function DirLengthSq(f: Fire): real { f.dirX * f.dirX + f.dirY * f.dirY }

  function AlongRay(f: Fire, dirX: real, dirY: real, pos: (real, real)): real {
    (pos.0 - f.originX) * dirX + (pos.1 - f.originY) * dirY
  }

  function OffRaySq(f: Fire, dirX: real, dirY: real, pos: (real, real)): real {
    var along := AlongRay(f, dirX, dirY, pos);
    var dx, dy := pos.0 - (f.originX + dirX * along), pos.1 - (f.originY + dirY * along);
    dx * dx + dy * dy
  }

  /** From a shot, its range and a position: how far along the ray the position is hit, if it is. */
  type Geometry = (Fire, real, (real, real)) -> Option<real>

  /** In front of the shooter, in range and within the hit radius of the ray; a shot without direction hits nothing. */
  function RayGeometry(norm: Norm, hitRadius: real): Geometry {
    (f: Fire, range: real, pos: (real, real)) =>
      var len := norm(f.dirX, f.dirY);
      if DirLengthSq(f) < DIRECTION_EPSILON || len == 0.0 then None
      else
        var dirX, dirY := f.dirX / len, f.dirY / len;
        var along := AlongRay(f, dirX, dirY, pos);
        if 0.0 <= along <= range && OffRaySq(f, dirX, dirY, pos) <= hitRadius * hitRadius then Some(along) else None
  }

  /** A living other player with a known position that the ray reaches. */
  predicate IsTarget(g: Geometry, f: Fire, range: real, fighters: map<nat, Fighter>, positions: Positions, id: nat) {
    && id in fighters && id != f.attacker && fighters[id].alive && id in positions
    && g(f, range, positions[id]).Some?
  }

  /** The targets of a shot, each with its distance along the ray. */
  function Targets(g: Geometry, f: Fire, range: real, fighters: map<nat, Fighter>, positions: Positions): map<nat, real> {
    map id | id in fighters && IsTarget(g, f, range, fighters, positions, id) :: g(f, range, positions[id]).value
  }

  function Slack(n: int): real { (n - 1) as real * TIE_TOLERANCE }

  predicate WithinTolerance(a: real, b: real) { -TIE_TOLERANCE <= a - b <= TIE_TOLERANCE }

  /** Distances that differ at all differ by more than the tie tolerance. */
  ghost predicate Separated(targets: map<nat, real>) {
    forall a, b :: a in targets && b in targets && targets[a] != targets[b] ==> !WithinTolerance(targets[a], targets[b])
  }

  /** What the choice guarantees, whatever order the table was visited in. */
  ghost predicate Chosen(targets: map<nat, real>, hit: Option<RayHit>) {
    && (hit.None? <==> targets == map[])
    && (hit.Some? ==>
          && hit.value.victim in targets && targets[hit.value.victim] == hit.value.distance
          && (forall id :: id in targets ==> hit.value.distance <= targets[id] + Slack(|targets|))
          && (Separated(targets) ==> forall id :: id in targets && id != hit.value.victim ==>
                hit.value.distance < targets[id] || (hit.value.distance == targets[id] && hit.value.victim < id)))
  }

  /** The running best after one more target. */
  function Better(best: Option<RayHit>, id: nat, along: real): Option<RayHit> {
    if best.None? || along < best.value.distance || (WithinTolerance(along, best.value.distance) && id < best.value.victim)
    then Some(RayHit(id, along)) else best
  }

  lemma ChosenExtends(targets: map<nat, real>, best: Option<RayHit>, id: nat, along: real)
    requires Chosen(targets, best) && id !in targets
    ensures Chosen(targets[id := along], Better(best, id, along))
  {
    var more, next := targets[id := along], Better(best, id, along);
    assert id in more;
    assert |more| == |targets| + 1;
    SlackGrows(|targets|);
    if best.Some? && Separated(more) {
      SeparatedSubset(targets, id, along);
      assert best.value.victim in more;
    }
  }

  lemma SlackGrows(n: nat)
    ensures Slack(n + 1) == Slack(n) + TIE_TOLERANCE
    ensures n >= 1 ==> Slack(n) >= 0.0
  {
  }

  lemma SeparatedSubset(targets: map<nat, real>, id: nat, along: real)
    requires id !in targets && Separated(targets[id := along])
    ensures Separated(targets)
  {
    var more := targets[id := along];
    forall a, b | a in targets && b in targets && targets[a] != targets[b] ensures !WithinTolerance(targets[a], targets[b]) {
      assert a in more && b in more && more[a] == targets[a] && more[b] == targets[b];
    }
  }

  /** The choice is the same for every visiting order once distances are separated. */
  lemma ChoiceIsUnique(targets: map<nat, real>, a: Option<RayHit>, b: Option<RayHit>)
    requires Separated(targets) && Chosen(targets, a) && Chosen(targets, b)
    ensures a == b
  {
  }

  // ---------------------------------------------------------------------------------------------
  // When the visiting order decides
  // ---------------------------------------------------------------------------------------------

  /** An order in which a table of targets can be visited: every one, once. */
  ghost predicate Orders(order: seq<nat>, targets: map<nat, real>) {
    && (forall id :: id in order <==> id in targets)
    && (forall i, j :: 0 <= i < j < |order| ==> order[i] != order[j])
  }

  /** The running best after visiting the targets of the list. */
  function Visit(order: seq<nat>, targets: map<nat, real>): Option<RayHit>
    requires forall id :: id in order ==> id in targets
  {
    if order == [] then None
    else
      var id := order[|order| - 1];
      Better(Visit(order[..|order| - 1], targets), id, targets[id])
  }

  /** First by distance, then by id. */
  predicate Precedes(targets: map<nat, real>, a: nat, b: nat)
    requires a in targets && b in targets
  {
    targets[a] < targets[b] || (targets[a] == targets[b] && a < b)
  }

  ghost predicate IsFirst(targets: map<nat, real>, l: nat) {
    l in targets && forall id :: id in targets && id != l ==> Precedes(targets, l, id)
  }

  /** A target of smaller id than the first one's and within the tolerance of it can take its place. */
  ghost predicate Rivals(targets: map<nat, real>, l: nat, r: nat)
    requires l in targets
  {
    r in targets && r < l && targets[r] <= targets[l] + TIE_TOLERANCE
  }

  lemma {:induction false} SomebodyIsFirst(targets: map<nat, real>) returns (l: nat)
    requires targets != map[]
    ensures IsFirst(targets, l)
    decreases |targets|
  {
    var k :| k in targets;
    var rest := targets - {k};
    assert forall id :: id in targets ==> id == k || id in rest;
    if rest == map[] {
      l := k;
    } else {
      assert |rest.Keys| < |targets.Keys|;
      var first := SomebodyIsFirst(rest);
      l := if Precedes(targets, first, k) then first else k;
      forall id | id in targets && id != l ensures Precedes(targets, l, id) {
        if id != k && id != first { assert Precedes(rest, first, id); }
      }
    }
  }

  /** The running best is one of the targets visited. */
  lemma {:induction false} VisitFindsOne(order: seq<nat>, targets: map<nat, real>)
    requires forall id :: id in order ==> id in targets
    ensures var v := Visit(order, targets);
            && (v.None? <==> order == [])
            && (v.Some? ==> v.value.victim in order && v.value.distance == targets[v.value.victim])
  {
    if order != [] {
      VisitFindsOne(order[..|order| - 1], targets);
      assert order == order[..|order| - 1] + [order[|order| - 1]];
    }
  }

  lemma VisitSnoc(order: seq<nat>, id: nat, targets: map<nat, real>)
    requires id in targets && forall k :: k in order ==> k in targets
    ensures Visit(order + [id], targets) == Better(Visit(order, targets), id, targets[id])
  {
    assert (order + [id])[..|order|] == order;
  }

  /** Visited last, the first target is hit whatever came before. */
  lemma FirstVisitedLast(order: seq<nat>, targets: map<nat, real>, l: nat)
    requires IsFirst(targets, l) && l !in order && forall id :: id in order ==> id in targets
    ensures Visit(order + [l], targets) == Some(RayHit(l, targets[l]))
  {
    VisitFindsOne(order, targets);
    VisitSnoc(order, l, targets);
    var before := Visit(order, targets);
    if before.Some? { assert Precedes(targets, l, before.value.victim); }
  }

  /** Without a rival, the first target is hit from the moment it is visited. */
  lemma {:induction false} FirstStays(order: seq<nat>, targets: map<nat, real>, l: nat)
    requires IsFirst(targets, l) && (forall r :: !Rivals(targets, l, r))
    requires l in order && (forall id :: id in order ==> id in targets)
    requires forall i, j :: 0 <= i < j < |order| ==> order[i] != order[j]
    ensures Visit(order, targets) == Some(RayHit(l, targets[l]))
  {
    var n := |order| - 1;
    var last := order[n];
    assert order == order[..n] + [last];
    if last == l {
      FirstVisitedLast(order[..n], targets, l);
    } else {
      FirstStays(order[..n], targets, l);
      assert Precedes(targets, l, last) && !Rivals(targets, l, last);
    }
  }

  lemma TwoLast(rest: seq<nat>, x: nat, y: nat, targets: map<nat, real>)
    requires x in targets && y in targets && x != y && Ids.Lists(rest, targets.Keys - {x, y})
    ensures Orders(rest + [x] + [y], targets) && x !in rest && y !in rest + [x]
    ensures forall id :: id in rest + [x] ==> id in targets
  {
    assert forall i :: 0 <= i < |rest| ==> rest[i] in rest;
  }

  /** With a rival two orders differ: the first target and its rival visited last, either way round. */
  lemma RivalDisturbs(targets: map<nat, real>, l: nat, r: nat) returns (a: seq<nat>, b: seq<nat>)
    requires IsFirst(targets, l) && Rivals(targets, l, r)
    ensures Orders(a, targets) && Orders(b, targets)
    ensures Visit(a, targets) == Some(RayHit(l, targets[l])) && Visit(b, targets) == Some(RayHit(r, targets[r]))
  {
    var rest := Ids.InOrder(targets.Keys - {l, r});
    assert Precedes(targets, l, r);
    assert {r, l} == {l, r};
    hide Visit, Orders, IsFirst, Ids.Lists;
    TwoLast(rest, r, l, targets);
    TwoLast(rest, l, r, targets);
    a, b := rest + [r] + [l], rest + [l] + [r];
    FirstVisitedLast(rest + [r], targets, l);
    FirstVisitedLast(rest, targets, l);
    VisitSnoc(rest + [l], r, targets);
  }

  /** Whichever way the table is visited, the same target is hit. */
  ghost predicate OrderIsIrrelevant(targets: map<nat, real>) {
    forall a, b :: Orders(a, targets) && Orders(b, targets) ==> Visit(a, targets) == Visit(b, targets)
  }

  /**
   * For any number of targets the visiting order is irrelevant exactly when the first target by (distance, id) has no
   * rival: no target of smaller id within the tolerance of it. The first target is then the one that is hit.
   */
  lemma VisitOrderDecidesExactly(targets: map<nat, real>, l: nat)
    requires IsFirst(targets, l)
    ensures OrderIsIrrelevant(targets) <==> forall r :: !Rivals(targets, l, r)
    ensures (forall r :: !Rivals(targets, l, r)) ==> forall a :: Orders(a, targets) ==> Visit(a, targets) == Some(RayHit(l, targets[l]))
  {
    if r :| Rivals(targets, l, r) {
      var a, b := RivalDisturbs(targets, l, r);
    } else {
      forall a | Orders(a, targets) ensures Visit(a, targets) == Some(RayHit(l, targets[l])) {
        FirstStays(a, targets, l);
      }
    }
  }

  lemma VisitTwo(a: nat, b: nat, targets: map<nat, real>)
    requires a in targets && b in targets
    ensures Visit([a, b], targets) == Better(Some(RayHit(a, targets[a])), b, targets[b])
  {
    VisitSnoc([a], b, targets);
    VisitSnoc([], a, targets);
    assert [a] + [b] == [a, b] && [] + [a] == [a];
  }

  /**
   * Of two targets the visiting order decides exactly when they are apart by no more than the tolerance and the
   * farther one has the smaller id; whichever is visited last is then hit.
   */
  lemma VisitOrderCanDecide(near: RayHit, far: RayHit)
    requires near.victim != far.victim && near.distance <= far.distance
    ensures var targets := map[near.victim := near.distance, far.victim := far.distance];
            var nearFirst, farFirst := Visit([near.victim, far.victim], targets), Visit([far.victim, near.victim], targets);
            var decides := near.distance < far.distance <= near.distance + TIE_TOLERANCE && far.victim < near.victim;
            && (!OrderIsIrrelevant(targets) <==> decides)
            && (nearFirst != farFirst <==> decides)
            && (decides ==> nearFirst == Some(far) && farFirst == Some(near))
            && (!decides ==> nearFirst == Some(if near.distance < far.distance || near.victim < far.victim then near else far))
  {
    var targets := map[near.victim := near.distance, far.victim := far.distance];
    var l := if near.distance < far.distance || near.victim < far.victim then near.victim else far.victim;
    VisitOrderDecidesExactly(targets, l);
    hide OrderIsIrrelevant, Visit;
    VisitTwo(near.victim, far.victim, targets);
    VisitTwo(far.victim, near.victim, targets);
    if near.distance < far.distance <= near.distance + TIE_TOLERANCE && far.victim < near.victim {
      assert Rivals(targets, l, far.victim);
    }
  }

  /** The best that some visiting order of the table leaves. */
  ghost predicate CanBeHit(targets: map<nat, real>, hit: Option<RayHit>) {
    exists order :: Orders(order, targets) && hit == Visit(order, targets)
  }

  /** Whatever can be hit is within the tolerances of the nearest, and the first target when distances are separated. */
  lemma CanBeHitIsChosen(targets: map<nat, real>, hit: Option<RayHit>)
    requires CanBeHit(targets, hit)
    ensures Chosen(targets, hit)
  {
    var order :| Orders(order, targets) && hit == Visit(order, targets);
    VisitIsChosen(order, targets);
  }

  lemma VisitExtends(order: seq<nat>, targets: map<nat, real>, id: nat, along: real)
    requires Orders(order, targets) && id !in targets
    ensures Orders(order + [id], targets[id := along])
    ensures Visit(order + [id], targets[id := along]) == Better(Visit(order, targets), id, along)
  {
    VisitSnoc(order, id, targets[id := along]);
    SameVisit(order, targets, targets[id := along]);
    assert forall i :: 0 <= i < |order| ==> order[i] in order;
  }

  lemma {:induction false} SameVisit(order: seq<nat>, a: map<nat, real>, b: map<nat, real>)
    requires forall id :: id in order ==> id in a && id in b && a[id] == b[id]
    ensures Visit(order, a) == Visit(order, b)
  {
    if order != [] { SameVisit(order[..|order| - 1], a, b); }
  }

  lemma OrderWithoutLast(order: seq<nat>, targets: map<nat, real>)
    requires Orders(order, targets) && order != []
    ensures var n := |order| - 1; Orders(order[..n], targets - {order[n]}) && order[n] in targets
    ensures var id := order[|order| - 1]; (targets - {id})[id := targets[id]] == targets
  {
    var n := |order| - 1;
    var rest := targets - {order[n]};
    assert order == order[..n] + [order[n]];
    forall k ensures k in order[..n] <==> k in rest {
      if k in rest { var i :| 0 <= i < |order| && order[i] == k; assert i < n; }
    }
  }

  /** Every visiting order keeps the promise of the choice. */
  lemma {:induction false} VisitIsChosen(order: seq<nat>, targets: map<nat, real>)
    requires Orders(order, targets)
    ensures Chosen(targets, Visit(order, targets))
    decreases |order|
  {
    if order == [] {
      assert targets == map[];
    } else {
      hide Chosen, Better;
      var n := |order| - 1;
      var id := order[n];
      OrderWithoutLast(order, targets);
      VisitIsChosen(order[..n], targets - {id});
      SameVisit(order[..n], targets - {id}, targets);
      ChosenExtends(targets - {id}, Visit(order[..n], targets - {id}), id, targets[id]);
    }
  }

  /** The targets among the fighters visited so far. */
  ghost function TargetsBut(g: Geometry, f: Fire, range: real, fighters: map<nat, Fighter>, positions: Positions, todo: set<nat>): map<nat, real> {
    map id | id in fighters && id !in todo && IsTarget(g, f, range, fighters, positions, id) :: g(f, range, positions[id]).value
  }

  lemma OneMoreVisited(g: Geometry, f: Fire, range: real, fighters: map<nat, Fighter>, positions: Positions, todo: set<nat>, id: nat)
    requires id in todo && todo <= fighters.Keys
    ensures var seen := TargetsBut(g, f, range, fighters, positions, todo);
            && id !in seen
            && TargetsBut(g, f, range, fighters, positions, todo - {id}) ==
               if IsTarget(g, f, range, fighters, positions, id) then seen[id := g(f, range, positions[id]).value] else seen
  {
    hide IsTarget;
  }

  lemma AllVisited(g: Geometry, f: Fire, range: real, fighters: map<nat, Fighter>, positions: Positions)
    ensures TargetsBut(g, f, range, fighters, positions, {}) == Targets(g, f, range, fighters, positions)
    ensures TargetsBut(g, f, range, fighters, positions, fighters.Keys) == map[]
  {
  }

  method RaycastVictim(g: Geometry, f: Fire, range: real, fighters: map<nat, Fighter>, positions: Positions)
    returns (best: Option<RayHit>)
    ensures CanBeHit(Targets(g, f, range, fighters, positions), best)
    ensures Chosen(Targets(g, f, range, fighters, positions), best)
  {
    hide TargetsBut, Chosen, Better;
    best := None;
    ghost var order: seq<nat> := [];
    var todo := fighters.Keys;
    AllVisited(g, f, range, fighters, positions);
    while todo != {}
      invariant todo <= fighters.Keys
      invariant Orders(order, TargetsBut(g, f, range, fighters, positions, todo))
      invariant best == Visit(order, TargetsBut(g, f, range, fighters, positions, todo))
      decreases todo
    {
      hide Visit, Orders;
      var id :| id in todo;
      OneMoreVisited(g, f, range, fighters, positions, todo, id);
      if IsTarget(g, f, range, fighters, positions, id) {
        var along := g(f, range, positions[id]).value;
        VisitExtends(order, TargetsBut(g, f, range, fighters, positions, todo), id, along);
        best := Better(best, id, along);
        order := order + [id];
      }
      todo := todo - {id};
    }
    VisitIsChosen(order, Targets(g, f, range, fighters, positions));
  }
}
