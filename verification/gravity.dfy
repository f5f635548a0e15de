/** Bodies of the simulation: id allocation, colour choice at creation, and
    the shape of one world update (forces from a snapshot, then integration). */
module Gravity {
  import opened Machine
  import Lcg

  /** `TIME_DELAY`: the step of the integrator. */
  const TimeDelay: real := 0.5

  /** The colour value asking `PointWeight::new` to generate a colour. */
  const ColorSentinel: U32 := 0xfafa_fafa

  datatype Vec2 = Vec2(x: real, y: real)
  {
    function Plus(o: Vec2): Vec2 { Vec2(x + o.x, y + o.y) }
    function Scale(k: real): Vec2 { Vec2(x * k, y * k) }
    function Negate(): Vec2 { Vec2(-x, -y) }
  }

  const Zero := Vec2(0.0, 0.0)

  /** `PointWeight`: a body with its own id and draw colour. */
  datatype PointWeight = PointWeight(
    id: Usize, velocity: Vec2, force: Vec2, position: Vec2,
    mass: real, radius: real, color: U32)

  datatype World = World(objects: seq<PointWeight>)

  /** The process-wide id counter, threaded explicitly. */
  datatype Counter = Counter(issued: Usize)

  /** The counter at program start. */
  const InitialCounter := Counter(0)

  /** `id()`: `fetch_add(1)` returns the value before the increment; the
      addition wraps at 2^64. */
  function NextId(c: Counter): (r: (Usize, Counter))
    ensures r.0 == c.issued
    ensures c.issued < UsizeMax ==> r.1.issued == c.issued + 1
    ensures c.issued == UsizeMax ==> r.1.issued == 0
  {
    (c.issued, Counter((c.issued + 1) % UsizeModulus))
  }

  /** `get_current_id()`: the next id to be handed out, which is also the
      number of ids handed out so far (before any wrap). */
  function CurrentId(c: Counter): (r: Usize)
    ensures r == NextId(c).0
  {
    c.issued
  }

  /** `PointWeight::new`: takes the next id, starts at rest with no force,
      and replaces the sentinel colour by the generated one. */
  function NewPointWeight(c: Counter, position: Vec2, mass: real, color: U32, radius: real)
    : (r: (PointWeight, Counter))
    ensures r.0.id == CurrentId(c) && r.1 == NextId(c).1
    ensures r.0.color == if color == ColorSentinel then Lcg.SemiRandomU32(r.0.id) else color
    ensures r.0.velocity == Zero && r.0.force == Zero
    ensures r.0.position == position && r.0.mass == mass && r.0.radius == radius
  {
    var (id, c') := NextId(c);
    var color := if color == ColorSentinel then Lcg.SemiRandomU32(id) else color;
    (PointWeight(id, Zero, Zero, position, mass, radius, color), c')
  }

  /** What one `PointWeight::new` call is given. */
  datatype Spawn = Spawn(position: Vec2, mass: real, color: U32, radius: real)

  /** A run of `PointWeight::new` calls, in order. */
  function NewPointWeights(c: Counter, spawns: seq<Spawn>): (r: (seq<PointWeight>, Counter))
    ensures |r.0| == |spawns|
    ensures forall k | 0 <= k < |spawns| ::
              && r.0[k].position == spawns[k].position && r.0[k].mass == spawns[k].mass
              && r.0[k].radius == spawns[k].radius
              && r.0[k].velocity == Zero && r.0[k].force == Zero
              && r.0[k].color == (if spawns[k].color == ColorSentinel then Lcg.SemiRandomU32(r.0[k].id) else spawns[k].color)
    decreases |spawns|
  {
    if spawns == [] then ([], c)
    else
      var (first, c1) := NewPointWeight(c, spawns[0].position, spawns[0].mass, spawns[0].color, spawns[0].radius);
      var (rest, c2) := NewPointWeights(c1, spawns[1..]);
      ([first] + rest, c2)
  }

  /** Without a wrap of the counter, a run of creations hands out the
      consecutive ids from the current one, so they strictly increase and
      are pairwise distinct, and the counter advances by the run's length. */
  lemma {:induction false} NewIdsConsecutive(c: Counter, spawns: seq<Spawn>)
    requires c.issued + |spawns| <= UsizeMax
    ensures var (ws, c') := NewPointWeights(c, spawns);
            && c'.issued == c.issued + |spawns|
            && (forall k | 0 <= k < |ws| :: ws[k].id == c.issued + k)
            && (forall j, k | 0 <= j < k < |ws| :: ws[j].id < ws[k].id)
    decreases |spawns|
  {
    if spawns != [] {
      var (first, c1) := NewPointWeight(c, spawns[0].position, spawns[0].mass, spawns[0].color, spawns[0].radius);
      NewIdsConsecutive(c1, spawns[1..]);
    }
  }

  /** `World::get_id_offset`: the counter minus the number of objects. The
      `usize` subtraction must not underflow. */
  function IdOffset(c: Counter, w: World): (r: Usize)
    requires |w.objects| <= CurrentId(c)
    ensures r + |w.objects| == CurrentId(c)
  {
    CurrentId(c) - |w.objects|
  }

  /** A world built by one run of creations, with no other creation after
      it: the id offset is the first id, so each object's id minus the offset
      is its index. */
  lemma IdOffsetIsFirstId(c: Counter, spawns: seq<Spawn>)
    requires c.issued + |spawns| <= UsizeMax
    ensures var (ws, c') := NewPointWeights(c, spawns);
            && |ws| <= CurrentId(c')
            && IdOffset(c', World(ws)) == c.issued
            && forall k | 0 <= k < |ws| :: ws[k].id - IdOffset(c', World(ws)) == k
  {
    NewIdsConsecutive(c, spawns);
  }

  /** From program start, the first run of creations numbers its bodies
      0, 1, 2, ...: each id is the body's index, and the id offset is 0. */
  lemma FreshRunIds(spawns: seq<Spawn>)
    requires |spawns| <= UsizeMax
    ensures var (ws, c') := NewPointWeights(InitialCounter, spawns);
            && |ws| <= CurrentId(c')
            && IdOffset(c', World(ws)) == 0
            && forall k | 0 <= k < |ws| :: ws[k].id == k
  {
    IdOffsetIsFirstId(InitialCounter, spawns);
  }

  /** What the pairwise contribution reads of a body: its position and mass. */
  datatype Particle = Particle(position: Vec2, mass: real)

  function ParticleOf(p: PointWeight): Particle {
    Particle(p.position, p.mass)
  }

  /** The force `secondary` exerts on `obj` in `update`: the direction from
      obj to secondary times the gravity between them. Its numerics are not
      modelled; the update is stated for any such function. */
  type Pull = (Particle, Particle) -> Vec2

  /** The contribution of one snapshot entry: nothing from an entry with the
      same id as the body itself. */
  function Contribution(obj: PointWeight, secondary: PointWeight, pull: Pull): (r: Vec2)
    ensures secondary.id == obj.id ==> r == Zero
  {
    if secondary.id == obj.id then Zero else pull(ParticleOf(obj), ParticleOf(secondary))
  }

  /** Every entry carries the given id. */
  predicate OnlyId(snapshot: seq<PointWeight>, id: Usize)
    decreases |snapshot|
  {
    snapshot == [] || (snapshot[|snapshot| - 1].id == id && OnlyId(snapshot[..|snapshot| - 1], id))
  }

  /** The inner loop of `update`: the net force on `obj`, summed from zero
      over the snapshot in order. */
  function NetForce(snapshot: seq<PointWeight>, obj: PointWeight, pull: Pull): (r: Vec2)
    ensures OnlyId(snapshot, obj.id) ==> r == Zero
    decreases |snapshot|
  {
    if snapshot == [] then Zero
    else NetForce(snapshot[..|snapshot| - 1], obj, pull).Plus(Contribution(obj, snapshot[|snapshot| - 1], pull))
  }

  /** One body's Euler step: velocity from the new force over mass, then
      position from the new velocity. Requires a nonzero mass. */
  function Integrate(p: PointWeight): (r: PointWeight)
    requires p.mass != 0.0
    ensures r.(velocity := p.velocity, position := p.position) == p
    ensures r.position == p.position.Plus(r.velocity.Scale(TimeDelay))
  {
    var velocity := p.velocity.Plus(p.force.Scale(1.0 / p.mass).Scale(TimeDelay));
    p.(velocity := velocity, position := p.position.Plus(velocity.Scale(TimeDelay)))
  }

  predicate MassesNonzero(w: World) {
    forall i | 0 <= i < |w.objects| :: w.objects[i].mass != 0.0
  }

  /** Body i after the first loop of `update`. */
  function WithForce(w: World, i: nat, pull: Pull): PointWeight
    requires i < |w.objects|
  {
    w.objects[i].(force := NetForce(w.objects, w.objects[i], pull))
  }

  /** `World::update` as a reference: every force recomputed from the world
      as it was, then every body integrated with its new force. The update
      keeps the number and order of bodies and each body's identity, mass,
      size and colour; each force is the net force from the world as it
      was before the update. */
  function Step(w: World, pull: Pull): (r: World)
    requires MassesNonzero(w)
    ensures |r.objects| == |w.objects|
    ensures forall i | 0 <= i < |w.objects| ::
              var (p, q) := (w.objects[i], r.objects[i]);
              && q.id == p.id && q.mass == p.mass && q.radius == p.radius && q.color == p.color
              && q.force == NetForce(w.objects, p, pull)
  {
    World(seq(|w.objects|, i requires 0 <= i < |w.objects| => Integrate(WithForce(w, i, pull))))
  }

  /** `World::update`: the first loop overwrites each force from a snapshot
      taken before the loop, the second integrates every body. */
  method Update(w: World, pull: Pull) returns (r: World)
    requires MassesNonzero(w)
    ensures r == Step(w, pull)
  {
    var withForces := ComputeForces(w, pull);
    var objects := IntegrateAll(withForces);
    r := World(objects);
    assert r.objects == Step(w, pull).objects;
  }

  /** The first loop of `update`: every force recomputed from the snapshot. */
  method ComputeForces(w: World, pull: Pull) returns (objects: seq<PointWeight>)
    ensures |objects| == |w.objects|
    ensures forall k | 0 <= k < |objects| :: objects[k] == WithForce(w, k, pull)
  {
    var secondaries := w.objects;
    objects := w.objects;
    var i := 0;
    while i < |objects|
      invariant 0 <= i <= |objects| == |w.objects|
      invariant ForcesUpTo(objects, w, pull, i)
    {
      var obj := objects[i];
      var netForce := SumPulls(secondaries, obj, pull);
      ForcesStep(objects, w, pull, i, netForce);
      objects := objects[i := obj.(force := netForce)];
      i := i + 1;
    }
  }

  /** The first i bodies carry their new force and the others are as in w. */
  ghost predicate ForcesUpTo(objects: seq<PointWeight>, w: World, pull: Pull, i: nat) {
    && |objects| == |w.objects| && i <= |objects|
    && (forall k | 0 <= k < i :: objects[k] == WithForce(w, k, pull))
    && (forall k | i <= k < |objects| :: objects[k] == w.objects[k])
  }

  lemma ForcesStep(objects: seq<PointWeight>, w: World, pull: Pull, i: nat, netForce: Vec2)
    requires ForcesUpTo(objects, w, pull, i) && i < |objects|
    requires netForce == NetForce(w.objects, objects[i], pull)
    ensures ForcesUpTo(objects[i := objects[i].(force := netForce)], w, pull, i + 1)
  {
  }

  /** The second loop of `update`: every body integrated with its force. */
  method IntegrateAll(before: seq<PointWeight>) returns (objects: seq<PointWeight>)
    requires forall k | 0 <= k < |before| :: before[k].mass != 0.0
    ensures |objects| == |before|
    ensures forall k | 0 <= k < |objects| :: objects[k] == Integrate(before[k])
  {
    objects := before;
    var i := 0;
    while i < |objects|
      invariant 0 <= i <= |objects| == |before|
      invariant forall k | 0 <= k < i :: objects[k] == Integrate(before[k])
      invariant forall k | i <= k < |objects| :: objects[k] == before[k]
    {
      objects := objects[i := Integrate(objects[i])];
      i := i + 1;
    }
  }

  /** The inner loop of `update`: the pulls of every snapshot entry with
      another id, summed in order. */
  method SumPulls(secondaries: seq<PointWeight>, obj: PointWeight, pull: Pull) returns (netForce: Vec2)
    ensures netForce == NetForce(secondaries, obj, pull)
  {
    netForce := Zero;
    var j := 0;
    while j < |secondaries|
      invariant 0 <= j <= |secondaries|
      invariant netForce == NetForce(secondaries[..j], obj, pull)
    {
      var secondary := secondaries[j];
      assert secondaries[..j + 1][..j] == secondaries[..j];
      if secondary.id == obj.id {
        j := j + 1;
        continue;
      }
      netForce := netForce.Plus(pull(ParticleOf(obj), ParticleOf(secondary)));
      j := j + 1;
    }
    assert secondaries[..j] == secondaries;
  }

  /** The contributions read only ids, positions and masses. */
  predicate SameParticles(a: seq<PointWeight>, b: seq<PointWeight>) {
    && |a| == |b|
    && forall i | 0 <= i < |a| :: a[i].id == b[i].id && ParticleOf(a[i]) == ParticleOf(b[i])
  }

  lemma {:induction false} NetForceIgnoresMotion(a: seq<PointWeight>, b: seq<PointWeight>,
                                                 p: PointWeight, q: PointWeight, pull: Pull)
    requires SameParticles(a, b) && p.id == q.id && ParticleOf(p) == ParticleOf(q)
    ensures NetForce(a, p, pull) == NetForce(b, q, pull)
    decreases |a|
  {
    if a != [] {
      NetForceIgnoresMotion(a[..|a| - 1], b[..|b| - 1], p, q, pull);
    }
  }

  /** The force is overwritten, never accumulated: two worlds that differ
      only in their current forces update to the same world. */
  lemma StepOverwritesForce(w1: World, w2: World, pull: Pull)
    requires MassesNonzero(w1) && |w1.objects| == |w2.objects|
    requires forall i | 0 <= i < |w1.objects| :: w1.objects[i].(force := Zero) == w2.objects[i].(force := Zero)
    ensures MassesNonzero(w2) && Step(w1, pull) == Step(w2, pull)
  {
    assert MassesNonzero(w2) by {
      forall i | 0 <= i < |w2.objects| ensures w2.objects[i].mass != 0.0 {
        assert w1.objects[i].(force := Zero).mass == w2.objects[i].(force := Zero).mass;
      }
    }
    forall i | 0 <= i < |w1.objects|
      ensures Step(w1, pull).objects[i] == Step(w2, pull).objects[i]
    {
      var (p, q) := (w1.objects[i], w2.objects[i]);
      assert p.(force := Zero) == q.(force := Zero);
      assert SameParticles(w1.objects, w2.objects) by {
        forall k | 0 <= k < |w1.objects|
          ensures w1.objects[k].id == w2.objects[k].id && ParticleOf(w1.objects[k]) == ParticleOf(w2.objects[k])
        {
          assert w1.objects[k].(force := Zero) == w2.objects[k].(force := Zero);
        }
      }
      NetForceIgnoresMotion(w1.objects, w2.objects, p, q, pull);
    }
  }

  /** A body alone in the world feels no force: its velocity is kept and it
      drifts by velocity times the time step. */
  lemma LoneBody(p: PointWeight, pull: Pull)
    requires p.mass != 0.0
    ensures Step(World([p]), pull) ==
            World([p.(force := Zero, position := p.position.Plus(p.velocity.Scale(TimeDelay)))])
  {
    var w := World([p]);
    assert OnlyId(w.objects, p.id);
    var f := WithForce(w, 0, pull);
    assert f == p.(force := Zero);
    var q := Integrate(f);
    assert q.velocity == p.velocity by {
      assert Zero.Scale(1.0 / p.mass).Scale(TimeDelay) == Zero;
    }
    assert Step(w, pull).objects == [q];
  }

  /** Removing one snapshot entry removes exactly its contribution. */
  lemma {:induction false} NetForceRemove(s: seq<PointWeight>, i: nat, obj: PointWeight, pull: Pull)
    requires i < |s|
    ensures NetForce(s, obj, pull) == NetForce(s[..i] + s[i + 1..], obj, pull).Plus(Contribution(obj, s[i], pull))
    decreases |s|
  {
    var n := |s|;
    var t := s[..i] + s[i + 1..];
    if i < n - 1 {
      var init := s[..n - 1];
      var t' := init[..i] + init[i + 1..];
      assert t == t' + [s[n - 1]];
      assert t[..|t| - 1] == t' && t[|t| - 1] == s[n - 1];
      NetForceRemove(init, i, obj, pull);
      Swap(NetForce(t', obj, pull), Contribution(obj, s[i], pull), Contribution(obj, s[n - 1], pull));
    } else {
      assert t == s[..n - 1];
    }
  }

  /** The last two terms of a sum can be exchanged. */
  lemma Swap(a: Vec2, b: Vec2, c: Vec2)
    ensures a.Plus(b).Plus(c) == a.Plus(c).Plus(b)
  {
  }

  /** The order of the snapshot does not matter: any permutation of it gives
      the same net force (in exact arithmetic). */
  lemma {:induction false} NetForcePermutation(a: seq<PointWeight>, b: seq<PointWeight>, obj: PointWeight, pull: Pull)
    requires multiset(a) == multiset(b)
    ensures NetForce(a, obj, pull) == NetForce(b, obj, pull)
    decreases |a|
  {
    if a == [] {
      assert |b| == |multiset(b)| == 0;
    } else {
      var i := MatchLast(a, b);
      NetForcePermutation(a[..|a| - 1], b[..i] + b[i + 1..], obj, pull);
      NetForceRemove(b, i, obj, pull);
    }
  }

  /** The last entry of a occurs in any permutation b of it, and the rest of
      a is a permutation of b without that occurrence. */
  lemma MatchLast<T>(a: seq<T>, b: seq<T>) returns (i: nat)
    requires a != [] && multiset(a) == multiset(b)
    ensures i < |b| && b[i] == a[|a| - 1]
    ensures multiset(a[..|a| - 1]) == multiset(b[..i] + b[i + 1..])
  {
    var n := |a|;
    assert a[n - 1] in multiset(b) by {
      assert a[n - 1] in a;
    }
    i :| 0 <= i < |b| && b[i] == a[n - 1];
    MultisetRemove(a, n - 1);
    MultisetRemove(b, i);
    assert a[..n - 1] + a[n..] == a[..n - 1];
  }

  /** Dropping entry i removes one copy of it from the multiset. */
  lemma MultisetRemove<T>(s: seq<T>, i: nat)
    requires i < |s|
    ensures multiset(s[..i] + s[i + 1..]) == multiset(s) - multiset{s[i]}
  {
    assert s == s[..i] + [s[i]] + s[i + 1..];
  }

  /** Entries carrying the body's own id add nothing: a body never pulls
      on itself, whether it appears in the snapshot once or more. */
  lemma NetForceSkipsSameId(s1: seq<PointWeight>, s2: seq<PointWeight>, obj: PointWeight, other: PointWeight, pull: Pull)
    requires other.id == obj.id
    ensures NetForce(s1 + [other] + s2, obj, pull) == NetForce(s1 + s2, obj, pull)
  {
    var s := s1 + [other] + s2;
    assert s[..|s1|] + s[|s1| + 1..] == s1 + s2;
    NetForceRemove(s, |s1|, obj, pull);
  }

  /** The pull of b on a is the reverse of the pull of a on b, as for
      gravity along the line between two bodies. */
  ghost predicate Antisymmetric(pull: Pull) {
    forall p, q :: pull(p, q) == pull(q, p).Negate()
  }

  /** The force body a exerts on each of the sources ss, summed. */
  function Exerted(ss: seq<PointWeight>, a: PointWeight, pull: Pull): Vec2
    decreases |ss|
  {
    if ss == [] then Zero
    else Exerted(ss[..|ss| - 1], a, pull).Plus(Contribution(ss[|ss| - 1], a, pull))
  }

  /** The net forces on every receiver in rs from the sources ss, summed. */
  function Cross(rs: seq<PointWeight>, ss: seq<PointWeight>, pull: Pull): Vec2
    decreases |rs|
  {
    if rs == [] then Zero
    else Cross(rs[..|rs| - 1], ss, pull).Plus(NetForce(ss, rs[|rs| - 1], pull))
  }

  /** The sum of all forces the update computes. */
  function TotalForce(w: World, pull: Pull): Vec2 {
    Cross(w.objects, w.objects, pull)
  }

  lemma NegatePlus(u: Vec2, v: Vec2)
    ensures u.Negate().Plus(v.Negate()) == u.Plus(v).Negate()
  {
  }

  /** What one body pulls on another, the other pulls back reversed. */
  lemma ContributionReacts(a: PointWeight, b: PointWeight, pull: Pull)
    requires Antisymmetric(pull)
    ensures Contribution(a, b, pull) == Contribution(b, a, pull).Negate()
  {
    if a.id != b.id {
      assert pull(ParticleOf(a), ParticleOf(b)) == pull(ParticleOf(b), ParticleOf(a)).Negate();
    }
  }

  lemma {:induction false} NetForceReacts(ss: seq<PointWeight>, a: PointWeight, pull: Pull)
    requires Antisymmetric(pull)
    ensures NetForce(ss, a, pull) == Exerted(ss, a, pull).Negate()
    decreases |ss|
  {
    if ss != [] {
      var init, b := ss[..|ss| - 1], ss[|ss| - 1];
      NetForceReacts(init, a, pull);
      ContributionReacts(a, b, pull);
      NegatePlus(Exerted(init, a, pull), Contribution(b, a, pull));
    }
  }

  lemma {:induction false} CrossOfNothing(ss: seq<PointWeight>, pull: Pull)
    ensures Cross(ss, [], pull) == Zero
    decreases |ss|
  {
    if ss != [] {
      CrossOfNothing(ss[..|ss| - 1], pull);
    }
  }

  /** Regrouping a sum of four vectors. */
  lemma Interchange(x: Vec2, e: Vec2, n: Vec2, c: Vec2)
    ensures x.Plus(e).Plus(n.Plus(c)) == x.Plus(n).Plus(e.Plus(c))
  {
  }

  lemma {:induction false} CrossSnoc(ss: seq<PointWeight>, rs: seq<PointWeight>, a: PointWeight, pull: Pull)
    ensures Cross(ss, rs + [a], pull) == Cross(ss, rs, pull).Plus(Exerted(ss, a, pull))
    decreases |ss|
  {
    if ss != [] {
      var init, b := ss[..|ss| - 1], ss[|ss| - 1];
      CrossSnoc(init, rs, a, pull);
      assert (rs + [a])[..|rs|] == rs;
      var x, e := Cross(init, rs, pull), Exerted(init, a, pull);
      var n, c := NetForce(rs, b, pull), Contribution(b, a, pull);
      assert NetForce(rs + [a], b, pull) == n.Plus(c);
      assert Cross(ss, rs + [a], pull) == x.Plus(e).Plus(n.Plus(c));
      assert Cross(ss, rs, pull) == x.Plus(n);
      assert Exerted(ss, a, pull) == e.Plus(c);
      Interchange(x, e, n, c);
    }
  }

  /** The forces of ss on rs are the reverse of the forces of rs on ss. */
  lemma {:induction false} CrossAntisymmetric(rs: seq<PointWeight>, ss: seq<PointWeight>, pull: Pull)
    requires Antisymmetric(pull)
    ensures Cross(rs, ss, pull) == Cross(ss, rs, pull).Negate()
    decreases |rs|
  {
    if rs == [] {
      CrossOfNothing(ss, pull);
    } else {
      var init, a := rs[..|rs| - 1], rs[|rs| - 1];
      assert rs == init + [a];
      CrossAntisymmetric(init, ss, pull);
      NetForceReacts(ss, a, pull);
      CrossSnoc(ss, init, a, pull);
      var x, e := Cross(ss, init, pull), Exerted(ss, a, pull);
      assert Cross(rs, ss, pull) == x.Negate().Plus(e.Negate());
      NegatePlus(x, e);
    }
  }

  /** Newton's third law for the update: with a pull that acts equally and
      oppositely, the forces computed for all bodies sum to zero. */
  lemma TotalForceVanishes(w: World, pull: Pull)
    requires Antisymmetric(pull)
    ensures TotalForce(w, pull) == Zero
  {
    CrossAntisymmetric(w.objects, w.objects, pull);
  }

  /** A sum of vectors, from the left. */
  function SumVec(vs: seq<Vec2>): Vec2
    decreases |vs|
  {
    if vs == [] then Zero else SumVec(vs[..|vs| - 1]).Plus(vs[|vs| - 1])
  }

  /** Each body's momentum: its velocity times its mass. */
  function Momenta(ps: seq<PointWeight>): (r: seq<Vec2>)
    ensures |r| == |ps|
  {
    seq(|ps|, i requires 0 <= i < |ps| => ps[i].velocity.Scale(ps[i].mass))
  }

  /** The net force from ss on each receiver in rs, in order. */
  function NetForces(rs: seq<PointWeight>, ss: seq<PointWeight>, pull: Pull): (r: seq<Vec2>)
    ensures |r| == |rs|
    ensures forall k | 0 <= k < |rs| :: r[k] == NetForce(ss, rs[k], pull)
    decreases |rs|
  {
    if rs == [] then []
    else NetForces(rs[..|rs| - 1], ss, pull) + [NetForce(ss, rs[|rs| - 1], pull)]
  }

  /** The summed forces of Cross are the sum of the per-receiver forces. */
  lemma {:induction false} CrossIsSum(rs: seq<PointWeight>, ss: seq<PointWeight>, pull: Pull)
    ensures Cross(rs, ss, pull) == SumVec(NetForces(rs, ss, pull))
    decreases |rs|
  {
    if rs != [] {
      var init := rs[..|rs| - 1];
      var fs := NetForces(init, ss, pull);
      var f := NetForce(ss, rs[|rs| - 1], pull);
      assert (fs + [f])[..|fs|] == fs;
      CrossIsSum(init, ss, pull);
    }
  }

  /** One body's momentum grows by its force times the time step. */
  lemma IntegrateImpulse(p: PointWeight)
    requires p.mass != 0.0
    ensures Integrate(p).velocity.Scale(p.mass) == p.velocity.Scale(p.mass).Plus(p.force.Scale(TimeDelay))
  {
    var k := 1.0 / p.mass;
    assert p.mass * k == 1.0;
    assert p.mass * (p.force.x * k * TimeDelay) == (p.mass * k) * p.force.x * TimeDelay;
    assert p.mass * (p.force.y * k * TimeDelay) == (p.mass * k) * p.force.y * TimeDelay;
  }

  lemma ScalePlus(u: Vec2, v: Vec2, k: real)
    ensures u.Plus(v).Scale(k) == u.Scale(k).Plus(v.Scale(k))
  {
  }

  /** Vectors that each grew by the time step times a force: their sum
      grew by the time step times the summed forces. */
  lemma {:induction false} SumImpulses(before: seq<Vec2>, after: seq<Vec2>, forces: seq<Vec2>)
    requires |before| == |after| == |forces|
    requires forall i | 0 <= i < |before| :: after[i] == before[i].Plus(forces[i].Scale(TimeDelay))
    ensures SumVec(after) == SumVec(before).Plus(SumVec(forces).Scale(TimeDelay))
    decreases |before|
  {
    if before != [] {
      var n := |before|;
      SumImpulses(before[..n - 1], after[..n - 1], forces[..n - 1]);
      var m, x := SumVec(before[..n - 1]), SumVec(forces[..n - 1]);
      ScalePlus(x, forces[n - 1], TimeDelay);
      Interchange(m, x.Scale(TimeDelay), before[n - 1], forces[n - 1].Scale(TimeDelay));
    }
  }

  /** Each body's momentum after the update is its momentum before plus the
      time step times its net force. */
  lemma StepImpulses(w: World, pull: Pull)
    requires MassesNonzero(w)
    ensures forall i | 0 <= i < |w.objects| ::
              Momenta(Step(w, pull).objects)[i]
              == Momenta(w.objects)[i].Plus(NetForces(w.objects, w.objects, pull)[i].Scale(TimeDelay))
  {
    var next := Step(w, pull).objects;
    forall i | 0 <= i < |w.objects|
      ensures Momenta(next)[i] == Momenta(w.objects)[i].Plus(NetForces(w.objects, w.objects, pull)[i].Scale(TimeDelay))
    {
      var p := WithForce(w, i, pull);
      assert next[i] == Integrate(p);
      IntegrateImpulse(p);
    }
  }

  lemma NoImpulse(m: Vec2, f: Vec2)
    requires f == Zero
    ensures m.Plus(f.Scale(TimeDelay)) == m
  {
  }

  /** With an equal-and-opposite pull the update conserves total momentum:
      the velocity changes cancel out because the forces do. */
  lemma MomentumConserved(w: World, pull: Pull)
    requires MassesNonzero(w) && Antisymmetric(pull)
    ensures SumVec(Momenta(Step(w, pull).objects)) == SumVec(Momenta(w.objects))
  {
    var before, after := Momenta(w.objects), Momenta(Step(w, pull).objects);
    var forces := NetForces(w.objects, w.objects, pull);
    StepImpulses(w, pull);
    SumImpulses(before, after, forces);
    CrossIsSum(w.objects, w.objects, pull);
    TotalForceVanishes(w, pull);
    NoImpulse(SumVec(before), SumVec(forces));
  }

}
