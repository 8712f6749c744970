/** The state-sync core of `GameEngine`: the bounded snapshot buffer that
    `onSnapshot` fills, and one call of `update`, which picks a render instant
    100 ms in the past, brackets it by two buffered snapshots, and rebuilds the
    render state from them. Time is an integer number of milliseconds passed in
    as `now`; coordinates are reals. */
module Engine {
  import opened Wrappers
  import opened Network
  import opened Events

  /** `if (this.snapshots.length > 30) this.snapshots.shift()`. */
  const BufferCapacity: nat := 30
  /** `renderTimeOffset`. */
  const RenderTimeOffset: int := 100

  datatype Vec = Vec(x: real, y: real)

  /** A buffered snapshot: the local arrival time and the snapshot body. */
  datatype TimedSnapshot = TimedSnapshot(time: int, data: SnapshotData)

  datatype RenderPlayer = RenderPlayer(
    x: real, y: real, hp: int, max: int, mana: Option<int>, maxMana: Option<int>, name: string)

  datatype RenderEnemy = RenderEnemy(x: real, y: real, hp: int, max: int)

  /** `renderState`: players and enemies keyed by id, projectiles in order. */
  datatype RenderState = RenderState(
    players: map<int, RenderPlayer>, projectiles: seq<Vec>, enemies: map<int, RenderEnemy>)

  // ---------------------------------------------------------------------------
  // Positions

  /** `getPos`: both wire shapes of a position become one `Vec`. */
  function GetPos(position: Position): (v: Vec)
    ensures position.Pair? ==> v.x == position.first && v.y == position.second
    ensures position.Point? ==> v.x == position.x && v.y == position.y
  {
    match position
    case Pair(a, b) => Vec(a, b)
    case Point(x, y) => Vec(x, y)
  }

  /** The array form and the object form of the same coordinates normalise to
      the same vector. */
  lemma GetPosShapeIndependent(a: real, b: real)
    ensures GetPos(Pair(a, b)) == GetPos(Point(a, b)) == Vec(a, b)
  {
  }

  // ---------------------------------------------------------------------------
  // Snapshot buffer

  /** The buffer after `onSnapshot` pushes `entry`: appended, and when that makes
      it longer than the capacity the oldest entry is shifted off. */
  function Pushed(buffer: seq<TimedSnapshot>, entry: TimedSnapshot): (r: seq<TimedSnapshot>)
    ensures |r| > 0 && r[|r| - 1] == entry
    ensures |buffer| < BufferCapacity ==> r == buffer + [entry]
    ensures |buffer| >= BufferCapacity ==> r == buffer[1..] + [entry]
    ensures |buffer| <= BufferCapacity ==> |r| <= BufferCapacity
  {
    var grown := buffer + [entry];
    if |grown| > BufferCapacity then grown[1..] else grown
  }

  /** Arrival times never decrease along the buffer. */
  predicate TimeOrdered(buffer: seq<TimedSnapshot>)
  {
    forall i, j :: 0 <= i < j < |buffer| ==> buffer[i].time <= buffer[j].time
  }

  /** With a clock that does not run backwards, pushing keeps the buffer ordered. */
  lemma PushedKeepsTimeOrder(buffer: seq<TimedSnapshot>, entry: TimedSnapshot)
    requires TimeOrdered(buffer)
    requires buffer != [] ==> buffer[|buffer| - 1].time <= entry.time
    ensures TimeOrdered(Pushed(buffer, entry))
  {
  }

  /** The buffer after pushing `entries` one after another. */
  function PushAll(buffer: seq<TimedSnapshot>, entries: seq<TimedSnapshot>): seq<TimedSnapshot>
    decreases |entries|
  {
    if entries == [] then buffer else PushAll(Pushed(buffer, entries[0]), entries[1..])
  }

  /** The last `BufferCapacity` elements of `s` (all of it when shorter). */
  function Newest(s: seq<TimedSnapshot>): seq<TimedSnapshot>
  {
    if |s| <= BufferCapacity then s else s[|s| - BufferCapacity..]
  }

  /** Dropping the oldest of more than `BufferCapacity` elements does not
      change the newest `BufferCapacity`. */
  lemma NewestDropsOldest(s: seq<TimedSnapshot>)
    requires |s| > BufferCapacity
    ensures Newest(s[1..]) == Newest(s)
  {
  }

  /** A suffix of an ordered sequence is ordered. */
  lemma NewestKeepsTimeOrder(s: seq<TimedSnapshot>)
    requires TimeOrdered(s)
    ensures TimeOrdered(Newest(s))
  {
  }

  /** FIFO eviction: after any run of pushes the buffer holds exactly the newest
      `BufferCapacity` of everything pushed, in arrival order, and so is never
      longer than the capacity and stays ordered when the arrivals were. */
  lemma {:induction false} PushAllKeepsNewest(buffer: seq<TimedSnapshot>, entries: seq<TimedSnapshot>)
    requires |buffer| <= BufferCapacity
    ensures PushAll(buffer, entries) == Newest(buffer + entries)
    ensures |PushAll(buffer, entries)| <= BufferCapacity
    ensures TimeOrdered(buffer + entries) ==> TimeOrdered(PushAll(buffer, entries))
    decreases |entries|
  {
    var all := buffer + entries;
    if entries == [] {
      assert all == buffer;
    } else {
      var next := Pushed(buffer, entries[0]);
      PushAllKeepsNewest(next, entries[1..]);
      if |buffer| < BufferCapacity {
        assert next + entries[1..] == all;
      } else {
        assert next + entries[1..] == all[1..];
        NewestDropsOldest(all);
      }
    }
    if TimeOrdered(all) {
      NewestKeepsTimeOrder(all);
    }
  }

  // ---------------------------------------------------------------------------
  // Bracket search

  /** Snapshot `i` and its successor enclose the render instant. */
  predicate Brackets(buffer: seq<TimedSnapshot>, i: nat, renderTime: int)
    requires i + 1 < |buffer|
  {
    buffer[i].time <= renderTime <= buffer[i + 1].time
  }

  /** The first index from `from` on whose pair brackets the render instant. */
  function FirstBracket(buffer: seq<TimedSnapshot>, renderTime: int, from: nat): (r: Option<nat>)
    ensures r.Some? ==>
      from <= r.value && r.value + 1 < |buffer| && Brackets(buffer, r.value, renderTime)
      && forall j :: from <= j < r.value ==> !Brackets(buffer, j, renderTime)
    ensures r.None? ==> forall j :: from <= j && j + 1 < |buffer| ==> !Brackets(buffer, j, renderTime)
    decreases |buffer| - from
  {
    if from + 1 >= |buffer| then None
    else if Brackets(buffer, from, renderTime) then Some(from)
    else FirstBracket(buffer, renderTime, from + 1)
  }

  /** The indices of `s1` and `s2`: both the newest snapshot when the render
      instant is past it; otherwise the first adjacent pair that brackets it;
      and `(0, 1)` when none does. */
  function Bracket(buffer: seq<TimedSnapshot>, renderTime: int): (pair: (nat, nat))
    requires |buffer| >= 2
    ensures pair.0 <= pair.1 < |buffer|
    ensures renderTime > buffer[|buffer| - 1].time ==> pair == (|buffer| - 1, |buffer| - 1)
    ensures renderTime <= buffer[|buffer| - 1].time ==>
      pair.1 == pair.0 + 1
      && ((Brackets(buffer, pair.0, renderTime)
           && forall j :: 0 <= j < pair.0 ==> !Brackets(buffer, j, renderTime))
          || (pair == (0, 1)
              && forall j :: 0 <= j && j + 1 < |buffer| ==> !Brackets(buffer, j, renderTime)))
  {
    if renderTime > buffer[|buffer| - 1].time then (|buffer| - 1, |buffer| - 1)
    else
      match FirstBracket(buffer, renderTime, 0)
      case Some(i) => (i, i + 1)
      case None => (0, 1)
  }

  /** An ordered buffer contains a bracketing pair from `from` on as soon as the
      render instant lies between snapshot `from` and the newest one. */
  lemma {:induction false} BracketExists(buffer: seq<TimedSnapshot>, renderTime: int, from: nat)
    requires TimeOrdered(buffer) && from + 1 < |buffer|
    requires buffer[from].time <= renderTime <= buffer[|buffer| - 1].time
    ensures FirstBracket(buffer, renderTime, from).Some?
    decreases |buffer| - from
  {
    if !Brackets(buffer, from, renderTime) {
      BracketExists(buffer, renderTime, from + 1);
    }
  }

  /** On an ordered buffer and a render instant no later than the newest
      snapshot, the chosen pair really brackets the instant exactly when the
      instant is not before the oldest snapshot: the `(0, 1)` fallback is taken
      only for an instant older than the whole buffer. */
  lemma BracketCoversRenderTime(buffer: seq<TimedSnapshot>, renderTime: int)
    requires |buffer| >= 2 && TimeOrdered(buffer)
    requires renderTime <= buffer[|buffer| - 1].time
    ensures Brackets(buffer, Bracket(buffer, renderTime).0, renderTime) <==> buffer[0].time <= renderTime
  {
    if buffer[0].time <= renderTime {
      BracketExists(buffer, renderTime, 0);
    }
  }

  /** The search in `update`: the freeze test, then a scan with early exit. */
  method SelectPair(buffer: seq<TimedSnapshot>, renderTime: int) returns (i1: nat, i2: nat)
    requires |buffer| >= 2
    ensures (i1, i2) == Bracket(buffer, renderTime)
  {
    i1, i2 := 0, 1;
    if renderTime > buffer[|buffer| - 1].time {
      i1 := |buffer| - 1;
      i2 := i1;
    } else {
      var i := 0;
      while i < |buffer| - 1
        invariant 0 <= i <= |buffer| - 1
        invariant FirstBracket(buffer, renderTime, 0) == FirstBracket(buffer, renderTime, i)
        invariant (i1, i2) == (0, 1)
      {
        if buffer[i].time <= renderTime && buffer[i + 1].time >= renderTime {
          i1, i2 := i, i + 1;
          break;
        }
        i := i + 1;
      }
    }
  }

  // ---------------------------------------------------------------------------
  // Interpolation factor

  /** A double-precision quotient as the clamp can observe it. */
  datatype Quotient = Finite(value: real) | PositiveInfinity | NegativeInfinity | NotANumber

  /** IEEE 754 division of two integers: exact when the divisor is non-zero,
      a signed infinity for a non-zero numerator over zero, and NaN for 0/0. */
  function Divide(num: int, den: int): (q: Quotient)
    ensures q.Finite? <==> den != 0
    ensures q.Finite? ==> q.value * den as real == num as real
    ensures q.PositiveInfinity? <==> den == 0 && num > 0
    ensures q.NegativeInfinity? <==> den == 0 && num < 0
    ensures q.NotANumber? <==> den == 0 && num == 0
  {
    if den != 0 then Finite(num as real / den as real)
    else if num > 0 then PositiveInfinity
    else if num < 0 then NegativeInfinity
    else NotANumber
  }

  /** `Math.max(0, Math.min(1, q))`; NaN passes through both and is `None`. */
  function Clamp01(q: Quotient): (r: Option<real>)
    ensures r.None? <==> q.NotANumber?
    ensures r.Some? ==> 0.0 <= r.value <= 1.0
    ensures q.Finite? && 0.0 <= q.value <= 1.0 ==> r == Some(q.value)
    ensures q.PositiveInfinity? || (q.Finite? && q.value > 1.0) ==> r == Some(1.0)
    ensures q.NegativeInfinity? || (q.Finite? && q.value < 0.0) ==> r == Some(0.0)
  {
    match q
    case Finite(v) => Some(if v > 1.0 then 1.0 else if v < 0.0 then 0.0 else v)
    case PositiveInfinity => Some(1.0)
    case NegativeInfinity => Some(0.0)
    case NotANumber => None
  }

  /** `clampedT` exactly as written, with `None` for NaN: 0 for the same
      snapshot, otherwise the clamped quotient. */
  function FactorAsWritten(renderTime: int, t1: int, t2: int, same: bool): (r: Option<real>)
    ensures r.None? <==> !same && t1 == t2 == renderTime
    ensures r.Some? ==> 0.0 <= r.value <= 1.0
  {
    if same then Some(0.0) else Clamp01(Divide(renderTime - t1, t2 - t1))
  }

  /** Two distinct snapshots with the same arrival time, and the render instant
      at that time, give NaN; the bracket search selects exactly such a pair. */
  lemma EqualTimesGiveNaN()
    ensures FactorAsWritten(1000, 1000, 1000, false).None?
    ensures Bracket([TimedSnapshot(1000, SnapshotData(0, [], None, None)),
                     TimedSnapshot(1000, SnapshotData(1, [], None, None))], 1000) == (0, 1)
  {
  }

  /** The interpolation factor used by the model: as written wherever that is a
      number, and 0 where the source produces NaN. It always lies in [0, 1], is
      0 for the same snapshot, and equals the plain ratio inside the bracket. */
  function InterpolationFactor(renderTime: int, t1: int, t2: int, same: bool): (t: real)
    ensures 0.0 <= t <= 1.0
    ensures FactorAsWritten(renderTime, t1, t2, same).Some? ==> t == FactorAsWritten(renderTime, t1, t2, same).value
    ensures same ==> t == 0.0
    ensures !same && t1 < t2 && t1 <= renderTime <= t2 ==> t == (renderTime - t1) as real / (t2 - t1) as real
    ensures !same && t1 < t2 && renderTime <= t1 ==> t == 0.0
    ensures !same && t1 < t2 && renderTime >= t2 ==> t == 1.0
  {
    RatioBounds(renderTime - t1, t2 - t1);
    match FactorAsWritten(renderTime, t1, t2, same)
    case Some(v) => v
    case None => 0.0
  }

  /** Where the numerator lies against 0 and the positive divisor decides where
      the quotient lies against 0 and 1. */
  lemma RatioBounds(num: int, den: int)
    ensures den > 0 && num <= 0 ==> num as real / den as real <= 0.0
    ensures den > 0 && num >= den ==> num as real / den as real >= 1.0
    ensures den > 0 && 0 <= num <= den ==> 0.0 <= num as real / den as real <= 1.0
  {
  }

  // ---------------------------------------------------------------------------
  // Entity reconciliation

  function Lerp(a: real, b: real, t: real): real
  {
    a + (b - a) * t
  }

  /** `v` lies between `a` and `b`, whichever is larger. */
  predicate Between(v: real, a: real, b: real)
  {
    (a <= v <= b) || (b <= v <= a)
  }

  lemma MulNonneg(x: real, y: real)
    requires x >= 0.0 && y >= 0.0
    ensures x * y >= 0.0
  {
  }

  /** A factor in [0, 1] never overshoots either end point. */
  lemma LerpBetween(a: real, b: real, t: real)
    ensures 0.0 <= t <= 1.0 ==> Between(Lerp(a, b, t), a, b)
  {
    if 0.0 <= t <= 1.0 {
      if a <= b {
        MulNonneg(b - a, t);
        MulNonneg(b - a, 1.0 - t);
        assert (b - a) * (1.0 - t) == (b - a) - (b - a) * t;
      } else {
        MulNonneg(a - b, t);
        MulNonneg(a - b, 1.0 - t);
        assert (a - b) * (1.0 - t) == (a - b) - (a - b) * t;
        assert (a - b) * t == -((b - a) * t);
      }
    }
  }

  /** The displayed position of an entity: blended from its earlier position,
      when it has one, towards its newer one by the factor `t`. */
  function Blend(from: Option<Vec>, to: Vec, t: real): (r: Vec)
    ensures from.None? ==> r == to
    ensures from.Some? && t == 0.0 ==> r == from.value
    ensures t == 1.0 ==> r == to
    ensures from.Some? && 0.0 <= t <= 1.0 ==> Between(r.x, from.value.x, to.x) && Between(r.y, from.value.y, to.y)
  {
    match from
    case None => to
    case Some(p) =>
      LerpBetween(p.x, to.x, t);
      LerpBetween(p.y, to.y, t);
      Vec(Lerp(p.x, to.x, t), Lerp(p.y, to.y, t))
  }

  /** The index of the first element of `s` with id `key`, as `find` picks it. */
  function FindIndex<E>(s: seq<E>, id: E -> int, key: int): (r: Option<nat>)
    ensures r.Some? ==> r.value < |s| && id(s[r.value]) == key
                        && forall j :: 0 <= j < r.value ==> id(s[j]) != key
    ensures r.None? ==> forall j :: 0 <= j < |s| ==> id(s[j]) != key
  {
    if s == [] then None
    else if id(s[0]) == key then Some(0)
    else
      match FindIndex(s[1..], id, key)
      case Some(k) => Some(k + 1)
      case None => None
  }

  function PlayerId(p: PlayerState): int { p.id }

  function EnemyId(e: EnemyState): int { e.id }

  /** The position of the first player in `s1` with id `key`, if any. */
  function EarlierPlayerPos(s1: seq<PlayerState>, key: int): Option<Vec>
  {
    match FindIndex(s1, PlayerId, key)
    case Some(k) => Some(GetPos(s1[k].position))
    case None => None
  }

  /** The position of the first enemy in `s1` with id `key`, if any. */
  function EarlierEnemyPos(s1: seq<EnemyState>, key: int): Option<Vec>
  {
    match FindIndex(s1, EnemyId, key)
    case Some(k) => Some(GetPos(s1[k].position))
    case None => None
  }

  /** A newer player as displayed: health, mana and name snap to `p2`; the
      position is interpolated from the first `s1` player with the same id, and
      is `p2`'s own when there is none. */
  function ReconcilePlayer(s1: seq<PlayerState>, p2: PlayerState, t: real): (r: RenderPlayer)
    ensures r.hp == p2.health && r.max == p2.maxHealth && r.name == p2.name
    ensures r.mana == p2.mana && r.maxMana == p2.maxMana
    ensures Vec(r.x, r.y) == Blend(EarlierPlayerPos(s1, p2.id), GetPos(p2.position), t)
  {
    var pos := Blend(EarlierPlayerPos(s1, p2.id), GetPos(p2.position), t);
    RenderPlayer(pos.x, pos.y, p2.health, p2.maxHealth, p2.mana, p2.maxMana, p2.name)
  }

  /** A newer enemy as displayed, by the same rule as players. */
  function ReconcileEnemy(s1: seq<EnemyState>, e2: EnemyState, t: real): (r: RenderEnemy)
    ensures r.hp == e2.health && r.max == e2.maxHealth
    ensures Vec(r.x, r.y) == Blend(EarlierEnemyPos(s1, e2.id), GetPos(e2.position), t)
  {
    var pos := Blend(EarlierEnemyPos(s1, e2.id), GetPos(e2.position), t);
    RenderEnemy(pos.x, pos.y, e2.health, e2.maxHealth)
  }

  /** The per-player rendering for a given older list and factor. */
  function PlayerRender(s1: seq<PlayerState>, t: real): PlayerState -> RenderPlayer
  {
    p2 => ReconcilePlayer(s1, p2, t)
  }

  /** The per-enemy rendering for a given older list and factor. */
  function EnemyRender(s1: seq<EnemyState>, t: real): EnemyState -> RenderEnemy
  {
    e2 => ReconcileEnemy(s1, e2, t)
  }

  /** The `Map` that `forEach` over `s` fills with `set(id(e), render(e))`: a
      later element with the same id overwrites an earlier one. */
  function Rebuild<E, R>(s: seq<E>, id: E -> int, render: E -> R): (m: map<int, R>)
    ensures forall key :: key in m ==>
      exists j :: 0 <= j < |s| && id(s[j]) == key && m[key] == render(s[j])
    decreases |s|
  {
    if s == [] then map[]
    else Rebuild(s[..|s| - 1], id, render)[id(s[|s| - 1]) := render(s[|s| - 1])]
  }

  /** The ids occurring in `s`. */
  function IdSet<E>(s: seq<E>, id: E -> int): set<int>
  {
    set k | 0 <= k < |s| :: id(s[k])
  }

  /** No later element of `s` has the id of element `k`. */
  predicate LastWithId<E>(s: seq<E>, id: E -> int, k: nat)
    requires k < |s|
  {
    forall j :: k < j < |s| ==> id(s[j]) != id(s[k])
  }

  /** The rebuilt map has exactly the ids of `s` as keys. */
  lemma {:induction false} RebuildKeys<E, R>(s: seq<E>, id: E -> int, render: E -> R)
    ensures Rebuild(s, id, render).Keys == IdSet(s, id)
    decreases |s|
  {
    if s != [] {
      var init := s[..|s| - 1];
      RebuildKeys(init, id, render);
      assert IdSet(s, id) == IdSet(init, id) + {id(s[|s| - 1])} by {
        forall x | x in IdSet(s, id) ensures x in IdSet(init, id) + {id(s[|s| - 1])} {
          var k :| 0 <= k < |s| && id(s[k]) == x;
          if k < |s| - 1 {
            assert init[k] == s[k];
          }
        }
        forall x | x in IdSet(init, id) ensures x in IdSet(s, id) {
          var k :| 0 <= k < |init| && id(init[k]) == x;
          assert s[k] == init[k];
        }
      }
    }
  }

  /** Each id is rendered from the last element of `s` that carries it. */
  lemma {:induction false} RebuildLastWins<E, R>(s: seq<E>, id: E -> int, render: E -> R, k: nat)
    requires k < |s| && LastWithId(s, id, k)
    ensures id(s[k]) in Rebuild(s, id, render)
    ensures Rebuild(s, id, render)[id(s[k])] == render(s[k])
    decreases |s|
  {
    if k < |s| - 1 {
      var init := s[..|s| - 1];
      assert init[k] == s[k];
      assert LastWithId(init, id, k) by {
        forall j | k < j < |init| ensures id(init[j]) != id(init[k]) {
          assert init[j] == s[j];
        }
      }
      RebuildLastWins(init, id, render, k);
    }
  }

  /** The loop of `forEach` and `set` that builds one entity map. */
  method RebuildMap<E, R>(s: seq<E>, id: E -> int, render: E -> R) returns (m: map<int, R>)
    ensures m == Rebuild(s, id, render)
  {
    m := map[];
    var i := 0;
    while i < |s|
      invariant 0 <= i <= |s|
      invariant m == Rebuild(s[..i], id, render)
    {
      assert s[..i + 1][..i] == s[..i];
      m := m[id(s[i]) := render(s[i])];
      i := i + 1;
    }
    assert s[..|s|] == s;
  }

  /** The enemies of a snapshot; an absent list behaves like an empty one. */
  function EnemiesOf(s: SnapshotData): seq<EnemyState>
  {
    match s.enemies
    case Some(es) => es
    case None => []
  }

  /** `s1.data.projectiles?.map(getPos) || []`. */
  function ProjectilePositions(s: SnapshotData): (r: seq<Vec>)
    ensures s.projectiles.None? ==> r == []
    ensures s.projectiles.Some? ==>
      |r| == |s.projectiles.value|
      && forall i :: 0 <= i < |r| ==> r[i] == GetPos(s.projectiles.value[i].position)
  {
    match s.projectiles
    case None => []
    case Some(ps) => seq(|ps|, i requires 0 <= i < |ps| => GetPos(ps[i].position))
  }

  /** The render state rebuilt from the bracketing pair and the factor. Every
      displayed player and enemy is some entity of the newer snapshot with that
      id, reconciled against the older one. */
  function Reconcile(s1: SnapshotData, s2: SnapshotData, t: real): (r: RenderState)
    ensures forall key :: key in r.players ==>
      exists k :: 0 <= k < |s2.players| && s2.players[k].id == key
        && r.players[key] == ReconcilePlayer(s1.players, s2.players[k], t)
    ensures forall key :: key in r.enemies ==>
      exists k :: 0 <= k < |EnemiesOf(s2)| && EnemiesOf(s2)[k].id == key
        && r.enemies[key] == ReconcileEnemy(EnemiesOf(s1), EnemiesOf(s2)[k], t)
  {
    RenderState(
      Rebuild(s2.players, PlayerId, PlayerRender(s1.players, t)),
      ProjectilePositions(s1),
      Rebuild(EnemiesOf(s2), EnemyId, EnemyRender(EnemiesOf(s1), t)))
  }

  /** The render state after one `update` at wall-clock time `now`. Once there
      are two snapshots, nothing is drawn that the newer chosen snapshot does not
      hold: each displayed player and enemy has the id, health and (for players)
      name of one of its entities. */
  function NextRenderState(buffer: seq<TimedSnapshot>, now: int, prev: RenderState): (r: RenderState)
    ensures |buffer| >= 2 ==>
      var s2 := buffer[Bracket(buffer, now - RenderTimeOffset).1].data;
      && (forall key :: key in r.players ==>
            exists k :: 0 <= k < |s2.players| && s2.players[k].id == key
              && r.players[key].hp == s2.players[k].health && r.players[key].name == s2.players[k].name)
      && (forall key :: key in r.enemies ==>
            exists k :: 0 <= k < |EnemiesOf(s2)| && EnemiesOf(s2)[k].id == key
              && r.enemies[key].hp == EnemiesOf(s2)[k].health)
  {
    if |buffer| < 2 then prev
    else
      var renderTime := now - RenderTimeOffset;
      var (i1, i2) := Bracket(buffer, renderTime);
      Reconcile(buffer[i1].data, buffer[i2].data,
                InterpolationFactor(renderTime, buffer[i1].time, buffer[i2].time, i1 == i2))
  }

  // ---------------------------------------------------------------------------
  // Properties of one update

  /** With fewer than two snapshots the frame is skipped. */
  lemma TooFewSnapshotsKeepsRenderState(buffer: seq<TimedSnapshot>, now: int, prev: RenderState)
    requires |buffer| < 2
    ensures NextRenderState(buffer, now, prev) == prev
  {
  }

  /** The element at `k` is the only one of `s` with its id. */
  predicate UniqueId<E>(s: seq<E>, id: E -> int, k: nat)
    requires k < |s|
  {
    forall j :: 0 <= j < |s| && j != k ==> id(s[j]) != id(s[k])
  }

  /** Every entity set is replaced: the keys are exactly the ids of the newer
      snapshot's players and enemies (none when it has no enemy list), so an id
      found only in the older snapshot is gone; projectiles are the older
      snapshot's, normalised, in order. */
  lemma RenderStateReplaced(buffer: seq<TimedSnapshot>, now: int, prev: RenderState)
    requires |buffer| >= 2
    ensures var (i1, i2) := Bracket(buffer, now - RenderTimeOffset);
            var r := NextRenderState(buffer, now, prev);
            && r.players.Keys == IdSet(buffer[i2].data.players, PlayerId)
            && r.enemies.Keys == IdSet(EnemiesOf(buffer[i2].data), EnemyId)
            && (buffer[i2].data.enemies.None? ==> r.enemies == map[])
            && r.projectiles == ProjectilePositions(buffer[i1].data)
  {
    var (i1, i2) := Bracket(buffer, now - RenderTimeOffset);
    var t := InterpolationFactor(now - RenderTimeOffset, buffer[i1].time, buffer[i2].time, i1 == i2);
    RebuildKeys(buffer[i2].data.players, PlayerId, PlayerRender(buffer[i1].data.players, t));
    RebuildKeys(EnemiesOf(buffer[i2].data), EnemyId, EnemyRender(EnemiesOf(buffer[i1].data), t));
  }

  /** Each displayed player is the newer snapshot's last player with that id,
      reconciled against the older snapshot: attributes from the newer one,
      position interpolated from the older one when it has the id. */
  lemma PlayersReconciled(buffer: seq<TimedSnapshot>, now: int, prev: RenderState, k: nat)
    requires |buffer| >= 2
    requires var (i1, i2) := Bracket(buffer, now - RenderTimeOffset);
             k < |buffer[i2].data.players| && LastWithId(buffer[i2].data.players, PlayerId, k)
    ensures var (i1, i2) := Bracket(buffer, now - RenderTimeOffset);
            var p2 := buffer[i2].data.players[k];
            var t := InterpolationFactor(now - RenderTimeOffset, buffer[i1].time, buffer[i2].time, i1 == i2);
            var r := NextRenderState(buffer, now, prev);
            && p2.id in r.players
            && r.players[p2.id] == ReconcilePlayer(buffer[i1].data.players, p2, t)
  {
    var (i1, i2) := Bracket(buffer, now - RenderTimeOffset);
    var t := InterpolationFactor(now - RenderTimeOffset, buffer[i1].time, buffer[i2].time, i1 == i2);
    RebuildLastWins(buffer[i2].data.players, PlayerId, PlayerRender(buffer[i1].data.players, t), k);
  }

  /** Each displayed enemy likewise. */
  lemma EnemiesReconciled(buffer: seq<TimedSnapshot>, now: int, prev: RenderState, k: nat)
    requires |buffer| >= 2
    requires var (i1, i2) := Bracket(buffer, now - RenderTimeOffset);
             k < |EnemiesOf(buffer[i2].data)| && LastWithId(EnemiesOf(buffer[i2].data), EnemyId, k)
    ensures var (i1, i2) := Bracket(buffer, now - RenderTimeOffset);
            var e2 := EnemiesOf(buffer[i2].data)[k];
            var t := InterpolationFactor(now - RenderTimeOffset, buffer[i1].time, buffer[i2].time, i1 == i2);
            var r := NextRenderState(buffer, now, prev);
            && e2.id in r.enemies
            && r.enemies[e2.id] == ReconcileEnemy(EnemiesOf(buffer[i1].data), e2, t)
  {
    var (i1, i2) := Bracket(buffer, now - RenderTimeOffset);
    var t := InterpolationFactor(now - RenderTimeOffset, buffer[i1].time, buffer[i2].time, i1 == i2);
    RebuildLastWins(EnemiesOf(buffer[i2].data), EnemyId, EnemyRender(EnemiesOf(buffer[i1].data), t), k);
  }

  /** Freeze at the newest snapshot: when the render instant is past it, a
      player whose id occurs once in it is shown with exactly its raw position
      and attributes. */
  lemma FrozenAtNewest(buffer: seq<TimedSnapshot>, now: int, prev: RenderState, k: nat)
    requires |buffer| >= 2 && now - RenderTimeOffset > buffer[|buffer| - 1].time
    requires var ps := buffer[|buffer| - 1].data.players; k < |ps| && UniqueId(ps, PlayerId, k)
    ensures var p := buffer[|buffer| - 1].data.players[k];
            var pos := GetPos(p.position);
            var r := NextRenderState(buffer, now, prev);
            && p.id in r.players
            && r.players[p.id] == RenderPlayer(pos.x, pos.y, p.health, p.maxHealth, p.mana, p.maxMana, p.name)
  {
    var n := |buffer| - 1;
    var ps := buffer[n].data.players;
    assert Bracket(buffer, now - RenderTimeOffset) == (n, n);
    PlayersReconciled(buffer, now, prev, k);
    var found := FindIndex(ps, PlayerId, ps[k].id);
    assert found == Some(k);
  }

  /** Freeze at the newest snapshot, for enemies. */
  lemma FrozenEnemiesAtNewest(buffer: seq<TimedSnapshot>, now: int, prev: RenderState, k: nat)
    requires |buffer| >= 2 && now - RenderTimeOffset > buffer[|buffer| - 1].time
    requires var es := EnemiesOf(buffer[|buffer| - 1].data); k < |es| && UniqueId(es, EnemyId, k)
    ensures var e := EnemiesOf(buffer[|buffer| - 1].data)[k];
            var pos := GetPos(e.position);
            var r := NextRenderState(buffer, now, prev);
            && e.id in r.enemies
            && r.enemies[e.id] == RenderEnemy(pos.x, pos.y, e.health, e.maxHealth)
  {
    var n := |buffer| - 1;
    var es := EnemiesOf(buffer[n].data);
    assert Bracket(buffer, now - RenderTimeOffset) == (n, n);
    EnemiesReconciled(buffer, now, prev, k);
    var found := FindIndex(es, EnemyId, es[k].id);
    assert found == Some(k);
  }

  /** Why the freeze lemmas need a unique id: with two records for id 1 in the
      newest snapshot, the position comes from the first (`find`) and the
      attributes from the last (`Map.set`), so the drawn player matches
      neither record. */
  lemma DuplicateIdMixesRecords()
    ensures var a := PlayerState(1, "a", Pair(0.0, 0.0), 100, 100, None, None);
            var b := PlayerState(1, "b", Pair(5.0, 5.0), 50, 100, None, None);
            var buffer := [TimedSnapshot(1000, SnapshotData(1, [], None, None)),
                           TimedSnapshot(1800, SnapshotData(2, [a, b], None, None))];
            var r := NextRenderState(buffer, 2000, RenderState(map[], [], map[]));
            r.players == map[1 := RenderPlayer(0.0, 0.0, 50, 100, None, None, "b")]
  {
    var a := PlayerState(1, "a", Pair(0.0, 0.0), 100, 100, None, None);
    var b := PlayerState(1, "b", Pair(5.0, 5.0), 50, 100, None, None);
    var buffer := [TimedSnapshot(1000, SnapshotData(1, [], None, None)),
                   TimedSnapshot(1800, SnapshotData(2, [a, b], None, None))];
    assert Bracket(buffer, 1900) == (1, 1);
    assert InterpolationFactor(1900, 1800, 1800, true) == 0.0;
    assert FindIndex([a, b], PlayerId, 1) == Some(0);
    assert [a, b][..1] == [a];
  }

  /** A worked frame: one player moving from (0, 0) with 100 hp to (10, 0)
      with 80 hp between snapshots stamped 1000 and 1040, rendered at 1020 and
      given in the two wire shapes, is drawn half-way at (5, 0) with 80 hp, not
      90. */
  lemma HalfwayFrame()
    ensures var p1 := PlayerState(1, "a", Pair(0.0, 0.0), 100, 100, None, None);
            var p2 := PlayerState(1, "a", Point(10.0, 0.0), 80, 100, None, None);
            var buffer := [TimedSnapshot(1000, SnapshotData(1, [p1], None, None)),
                           TimedSnapshot(1040, SnapshotData(2, [p2], None, None))];
            var r := NextRenderState(buffer, 1120, RenderState(map[], [], map[]));
            r.players == map[1 := RenderPlayer(5.0, 0.0, 80, 100, None, None, "a")]
  {
    var p1 := PlayerState(1, "a", Pair(0.0, 0.0), 100, 100, None, None);
    var p2 := PlayerState(1, "a", Point(10.0, 0.0), 80, 100, None, None);
    var buffer := [TimedSnapshot(1000, SnapshotData(1, [p1], None, None)),
                   TimedSnapshot(1040, SnapshotData(2, [p2], None, None))];
    var prev := RenderState(map[], [], map[]);
    assert Bracket(buffer, 1020) == (0, 1);
    var t := InterpolationFactor(1020, 1000, 1040, false);
    assert t == 0.5;
    assert FindIndex([p1], PlayerId, 1) == Some(0);
    assert ReconcilePlayer([p1], p2, t) == RenderPlayer(5.0, 0.0, 80, 100, None, None, "a");
    RenderStateReplaced(buffer, 1120, prev);
    PlayersReconciled(buffer, 1120, prev, 0);
    assert IdSet([p2], PlayerId) == {1};
  }

  // ---------------------------------------------------------------------------
  // The engine object

  class GameEngine {
    /** `snapshots`, oldest first. */
    var snapshots: seq<TimedSnapshot>
    var renderState: RenderState

    ghost predicate Valid()
      reads this
    {
      |snapshots| <= BufferCapacity
    }

    /** The constructor subscribes the engine's snapshot handler, whose
        identity is `handler`, to the network's `'snapshot'` event. */
    constructor (network: NetworkManager, handler: Listener)
      modifies network.emitter
      ensures Valid()
      ensures snapshots == [] && renderState == RenderState(map[], [], map[])
      ensures network.emitter.listeners == Register(old(network.emitter.listeners), "snapshot", handler)
    {
      snapshots := [];
      renderState := RenderState(map[], [], map[]);
      network.emitter.On("snapshot", handler);
    }

    /** `onSnapshot`: stamp the snapshot with the arrival time `now`, push it,
        and shift off the oldest entry once there are more than 30. */
    method OnSnapshot(snapshot: SnapshotData, now: int)
      requires Valid()
      modifies this`snapshots
      ensures Valid()
      ensures snapshots == Pushed(old(snapshots), TimedSnapshot(now, snapshot))
    {
      snapshots := snapshots + [TimedSnapshot(now, snapshot)];
      if |snapshots| > BufferCapacity {
        snapshots := snapshots[1..];
      }
    }

    /** `update` at wall-clock time `now`: skipped with fewer than two
        snapshots; otherwise the bracketing pair is found and the three parts
        of the render state are rebuilt from it. */
    method Update(now: int)
      modifies this`renderState
      ensures renderState == NextRenderState(snapshots, now, old(renderState))
    {
      var renderTime := now - RenderTimeOffset;
      var buffer := snapshots;
      if |buffer| < 2 {
        return;
      }
      var i1, i2 := SelectPair(buffer, renderTime);
      var s1, s2 := buffer[i1], buffer[i2];
      var t := InterpolationFactor(renderTime, s1.time, s2.time, i1 == i2);
      var players := RebuildMap(s2.data.players, PlayerId, PlayerRender(s1.data.players, t));
      var enemies := RebuildMap(EnemiesOf(s2.data), EnemyId, EnemyRender(EnemiesOf(s1.data), t));
      renderState := RenderState(players, ProjectilePositions(s1.data), enemies);
    }
  }
}
