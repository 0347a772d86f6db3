/** The value-level meaning of the freshkill pile and of feeding
    (scripts/clan_resources/freshkill.py): the expiry ladder, the nutrition
    record and its clamping setter, the allowance and score rules, and one
    feeding pass as a fold over the cats in the order the tactics choose.
    The class in module Freshkill is proved against these definitions. */
module FreshkillSpec {
  import opened Common
  import opened ClanCats

  // ---------------------------------------------------------------------------
  // The pile: four sub-piles by moons left before the prey spoils
  // ---------------------------------------------------------------------------

  /** The keys `expires_in_1` .. `expires_in_4`. */
  datatype Bucket = In1 | In2 | In3 | In4

  /** Soonest to expire first: the order in which a cat eats and in which
      `remove_freshkill` draws unless it shuffles. */
  const ExpiryOrder: seq<Bucket> := [In1, In2, In3, In4]

  /** The key order of a pile the game creates itself. */
  const FreshOrder: seq<Bucket> := [In4, In3, In2, In1]

  type Pile = map<Bucket, real>

  ghost predicate Complete(p: Pile)
  {
    forall b: Bucket :: b in p
  }

  function PileSum(p: Pile): real
    requires Complete(p)
  {
    p[In1] + p[In2] + p[In3] + p[In4]
  }

  /** The pile dictionary and its running `total_amount`. */
  datatype Store = Store(pile: Pile, total: real)

  /** Every sub-pile is present and non-negative and the total is their sum
      (the source rounds the total to two decimals; amounts here are exact). */
  ghost predicate StoreOk(s: Store)
  {
    Complete(s.pile) && (forall b :: s.pile[b] >= 0.0) && s.total == PileSum(s.pile)
  }

  /** The sub-piles of `t` are no fuller than those of `s`. */
  ghost predicate NoFuller(t: Store, s: Store)
    requires Complete(t.pile) && Complete(s.pile)
  {
    forall b :: t.pile[b] <= s.pile[b]
  }

  /** `take_from_pile(g, x)`: takes what it can of `x` from sub-pile `g` and
      returns the new store with the amount still missing. `suppressed` is
      the tick-feeding-without-auto-feed case, in which nothing is taken. */
  function Take(s: Store, g: Bucket, x: real, suppressed: bool): (r: (Store, real))
    requires StoreOk(s) && x >= 0.0
    ensures StoreOk(r.0) && 0.0 <= r.1 <= x
    ensures r.0.pile == s.pile[g := s.pile[g] - (x - r.1)]
    ensures r.0.total == s.total - (x - r.1)
    ensures suppressed || x == 0.0 ==> r == (s, x)
    ensures !suppressed && r.1 > 0.0 ==> r.0.pile[g] == 0.0
    ensures !suppressed && s.pile[g] >= x ==> r.1 == 0.0
  {
    if suppressed then (s, x)
    else if x == 0.0 then (s, x)
    else if s.pile[g] >= x then
      PileSumUpdate(s.pile, g, s.pile[g] - x);
      (Store(s.pile[g := s.pile[g] - x], s.total - x), 0.0)
    else if s.pile[g] > 0.0 then
      PileSumUpdate(s.pile, g, 0.0);
      (Store(s.pile[g := 0.0], s.total - s.pile[g]), x - s.pile[g])
    else (s, x)
  }

  lemma PileSumUpdate(p: Pile, g: Bucket, v: real)
    requires Complete(p)
    ensures Complete(p[g := v]) && PileSum(p[g := v]) == PileSum(p) - p[g] + v
  {
  }

  /** Successive takes from the sub-piles in `order`, each asking for what
      the previous ones left missing (the loops of `remove_freshkill` and of
      `__feed_individual`). */
  function Drain(s: Store, order: seq<Bucket>, x: real, suppressed: bool): (r: (Store, real))
    requires StoreOk(s) && x >= 0.0
    ensures StoreOk(r.0) && 0.0 <= r.1 <= x && NoFuller(r.0, s)
    ensures r.0.total == s.total - (x - r.1)
    ensures forall b :: b !in order ==> r.0.pile[b] == s.pile[b]
    ensures !suppressed && r.1 > 0.0 ==> forall b :: b in order ==> r.0.pile[b] == 0.0
    ensures suppressed || x == 0.0 ==> r == (s, x)
    decreases |order|
  {
    if order == [] then (s, x)
    else
      var t := Take(s, order[0], x, suppressed);
      Drain(t.0, order[1..], t.1, suppressed)
  }

  /** The `i`-th entry of `order_of_expiration` in `__feed_individual`. */
  function Soonest(i: nat): (b: Bucket)
    requires i < 4
    ensures b == ExpiryOrder[i]
  {
    if i == 0 then In1 else if i == 1 then In2 else if i == 2 then In3 else In4
  }

  /** What a cat eats: successive takes from the sub-piles `Soonest(i)`,
      ..., `Soonest(3)`, each asking for what the previous ones left missing
      (the loop of `__feed_individual`, from position `i`). */
  function Eat(s: Store, i: nat, x: real, suppressed: bool): (r: (Store, real))
    requires StoreOk(s) && x >= 0.0 && i <= 4
    ensures StoreOk(r.0) && 0.0 <= r.1 <= x && NoFuller(r.0, s)
    ensures r.0.total == s.total - (x - r.1)
    ensures forall j :: 0 <= j < i ==> r.0.pile[Soonest(j)] == s.pile[Soonest(j)]
    ensures !suppressed && r.1 > 0.0 ==> forall j :: i <= j < 4 ==> r.0.pile[Soonest(j)] == 0.0
    ensures suppressed || x == 0.0 ==> r == (s, x)
    decreases 4 - i
  {
    if i == 4 then (s, x)
    else
      var t := Take(s, Soonest(i), x, suppressed);
      Eat(t.0, i + 1, t.1, suppressed)
  }

  /** Eating is draining in `ExpiryOrder`, so the lemmas about `Drain` apply
      to it. */
  lemma {:induction false} EatIsDrain(s: Store, i: nat, x: real, suppressed: bool)
    requires StoreOk(s) && x >= 0.0 && i <= 4
    ensures Eat(s, i, x, suppressed) == Drain(s, ExpiryOrder[i..], x, suppressed)
    decreases 4 - i
  {
    if i < 4 {
      var t := Take(s, Soonest(i), x, suppressed);
      assert ExpiryOrder[i..][1..] == ExpiryOrder[i + 1..];
      EatIsDrain(t.0, i + 1, t.1, suppressed);
    }
  }

  /** Eating from all four sub-piles meets any demand the total covers. */
  lemma DrainEnough(s: Store, x: real, suppressed: bool)
    requires StoreOk(s) && 0.0 <= x <= s.total && !suppressed
    ensures Eat(s, 0, x, suppressed).1 == 0.0
  {
  }

  /** Soonest-to-expire first: a sub-pile that still holds prey after the draw
      means every sub-pile after it in `order` was left alone. */
  lemma {:induction false} DrainSoonestFirst(s: Store, order: seq<Bucket>, x: real, suppressed: bool, j: nat, k: nat)
    requires StoreOk(s) && x >= 0.0
    requires j < k < |order| && order[k] !in order[..k]
    requires Drain(s, order, x, suppressed).0.pile[order[j]] > 0.0
    ensures Drain(s, order, x, suppressed).0.pile[order[k]] == s.pile[order[k]]
    decreases |order|
  {
    DrainStep(s, order, x, suppressed);
    var t := Take(s, order[0], x, suppressed);
    if j == 0 {
      assert order[0] in order[..k];
      DrainHeadLeftover(s, order, x, suppressed, k);
    } else {
      TailIndices(order, j, k);
      DrainSoonestFirst(t.0, order[1..], t.1, suppressed, j - 1, k - 1);
      DrainTailKeeps(s, order, x, suppressed, k);
    }
  }

  /** A sub-pile after the first that the rest of the draw left alone was
      left alone by the whole draw. */
  lemma DrainTailKeeps(s: Store, order: seq<Bucket>, x: real, suppressed: bool, k: nat)
    requires StoreOk(s) && x >= 0.0
    requires 0 < k < |order| && order[k] != order[0]
    requires var t := Take(s, order[0], x, suppressed);
             Drain(t.0, order[1..], t.1, suppressed).0.pile[order[1..][k - 1]] == t.0.pile[order[1..][k - 1]]
    ensures Drain(s, order, x, suppressed).0.pile[order[k]] == s.pile[order[k]]
  {
    var t := Take(s, order[0], x, suppressed);
    var rest := order[1..];
    assert rest[k - 1] == order[k];
    DrainStep(s, order, x, suppressed);
    TakeKeepsOthers(s, order[0], x, suppressed, order[k]);
  }

  /** Drain takes from the first sub-pile, then drains the rest with what is
      still missing. */
  lemma DrainStep(s: Store, order: seq<Bucket>, x: real, suppressed: bool)
    requires StoreOk(s) && x >= 0.0 && order != []
    ensures var t := Take(s, order[0], x, suppressed);
            Drain(s, order, x, suppressed) == Drain(t.0, order[1..], t.1, suppressed)
  {
  }

  /** Taking from one sub-pile leaves every other sub-pile as it was. */
  lemma TakeKeepsOthers(s: Store, g: Bucket, x: real, suppressed: bool, b: Bucket)
    requires StoreOk(s) && x >= 0.0 && b != g
    ensures Take(s, g, x, suppressed).0.pile[b] == s.pile[b]
  {
  }

  /** The case of the first sub-pile: prey left in it means nothing was
      missing afterwards, so the rest of the draw took nothing. */
  lemma DrainHeadLeftover(s: Store, order: seq<Bucket>, x: real, suppressed: bool, k: nat)
    requires StoreOk(s) && x >= 0.0
    requires 0 < k < |order| && order[k] != order[0]
    requires Drain(s, order, x, suppressed).0.pile[order[0]] > 0.0
    ensures Drain(s, order, x, suppressed).0.pile[order[k]] == s.pile[order[k]]
  {
    var t := Take(s, order[0], x, suppressed);
    var rest := order[1..];
    assert Drain(s, order, x, suppressed) == Drain(t.0, rest, t.1, suppressed);
    assert t.1 == 0.0 || suppressed;
    assert order[k] == rest[k - 1];
  }

  // ---------------------------------------------------------------------------
  // Ageing: the rotation in time_skip
  // ---------------------------------------------------------------------------

  /** The rotation loop of `time_skip`: walking the keys in dictionary order,
      each key receives the value the previous key held, the first receives
      `prev`. */
  function Rotate(p: Pile, keys: seq<Bucket>, prev: real): (r: Pile)
    requires forall b :: b in keys ==> b in p
    ensures r.Keys == p.Keys
    ensures prev >= 0.0 && (forall b :: b in p ==> p[b] >= 0.0) ==> forall b :: b in r ==> r[b] >= 0.0
    decreases |keys|
  {
    if keys == [] then p
    else Rotate(p[keys[0] := prev], keys[1..], p[keys[0]])
  }

  /** Along the dictionary order, each key ends up with its predecessor's old
      value and the first key with `prev`; the last key's value is dropped. */
  lemma {:induction false} RotateShifts(p: Pile, keys: seq<Bucket>, prev: real, k: nat)
    requires forall b :: b in keys ==> b in p
    requires NoDup(keys) && k < |keys|
    ensures Rotate(p, keys, prev)[keys[k]] == if k == 0 then prev else p[keys[k - 1]]
  {
    var p' := p[keys[0] := prev];
    var rest := keys[1..];
    assert NoDup(rest);
    if k == 0 {
      RotateOutside(p', rest, p[keys[0]], keys[0]);
    } else {
      assert keys[k] == rest[k - 1];
      RotateShifts(p', rest, p[keys[0]], k - 1);
      if k > 1 {
        assert rest[k - 2] == keys[k - 1] && keys[k - 1] != keys[0];
      }
    }
  }

  lemma {:induction false} RotateOutside(p: Pile, keys: seq<Bucket>, prev: real, b: Bucket)
    requires forall c :: c in keys ==> c in p
    requires b in p && b !in keys
    ensures Rotate(p, keys, prev)[b] == p[b]
  {
    if keys != [] {
      RotateOutside(p[keys[0] := prev], keys[1..], p[keys[0]], b);
    }
  }

  /** Position of a sub-pile in the order of expiry. */
  function ExpiryIndex(b: Bucket): nat
  {
    match b
    case In1 => 0
    case In2 => 1
    case In3 => 2
    case In4 => 3
  }

  /** Both key orders hold each sub-pile once. */
  lemma KeyOrdersDistinct()
    ensures NoDup(ExpiryOrder) && NoDup(FreshOrder)
  {
    forall i, j | 0 <= i < j < 4
      ensures ExpiryOrder[i] != ExpiryOrder[j] && FreshOrder[i] != FreshOrder[j]
    {
      assert ExpiryIndex(ExpiryOrder[i]) == i && ExpiryIndex(ExpiryOrder[j]) == j by {
        assert ExpiryOrder[0] == In1 && ExpiryOrder[1] == In2 && ExpiryOrder[2] == In3 && ExpiryOrder[3] == In4;
      }
      assert ExpiryIndex(FreshOrder[i]) == 3 - i && ExpiryIndex(FreshOrder[j]) == 3 - j by {
        assert FreshOrder[0] == In4 && FreshOrder[1] == In3 && FreshOrder[2] == In2 && FreshOrder[3] == In1;
      }
    }
  }

  /** With the key order of a pile the game created, one moon moves every
      sub-pile one step towards expiry, empties `expires_in_4` and drops what
      was in `expires_in_1`. */
  lemma AgeOneMoon(p: Pile)
    requires Complete(p)
    ensures var r := Rotate(p, FreshOrder, 0.0);
            Complete(r) && r[In4] == 0.0 && r[In3] == p[In4] && r[In2] == p[In3] && r[In1] == p[In2]
            && PileSum(r) == PileSum(p) - p[In1]
  {
    KeyOrdersDistinct();
    RotateShifts(p, FreshOrder, 0.0, 0);
    RotateShifts(p, FreshOrder, 0.0, 1);
    RotateShifts(p, FreshOrder, 0.0, 2);
    RotateShifts(p, FreshOrder, 0.0, 3);
  }

  /** Four moons without new prey empty a pile whatever it held. */
  lemma FourMoonsEmpty(p: Pile)
    requires Complete(p)
    ensures var r := Rotate(Rotate(Rotate(Rotate(p, FreshOrder, 0.0), FreshOrder, 0.0), FreshOrder, 0.0), FreshOrder, 0.0);
            Complete(r) && r[In1] == 0.0 && r[In2] == 0.0 && r[In3] == 0.0 && r[In4] == 0.0
  {
    AgeOneMoon(p);
    var p1 := Rotate(p, FreshOrder, 0.0);
    AgeOneMoon(p1);
    var p2 := Rotate(p1, FreshOrder, 0.0);
    AgeOneMoon(p2);
    var p3 := Rotate(p2, FreshOrder, 0.0);
    AgeOneMoon(p3);
  }

  /** The rotation follows the dictionary's key order, not the key names: a
      pile whose keys were stored soonest-first moves prey AWAY from expiry
      and drops the freshest sub-pile. */
  lemma RotationFollowsKeyOrder(p: Pile)
    requires Complete(p)
    ensures var r := Rotate(p, ExpiryOrder, 0.0);
            r[In1] == 0.0 && r[In2] == p[In1] && r[In3] == p[In2] && r[In4] == p[In3]
  {
    KeyOrdersDistinct();
    RotateShifts(p, ExpiryOrder, 0.0, 0);
    RotateShifts(p, ExpiryOrder, 0.0, 1);
    RotateShifts(p, ExpiryOrder, 0.0, 2);
    RotateShifts(p, ExpiryOrder, 0.0, 3);
  }

  // ---------------------------------------------------------------------------
  // Nutrition records
  // ---------------------------------------------------------------------------

  /** A cat's `Nutrition` record. Its `percentage` is derived: the setter
      recomputes it from the score on every assignment, and the one direct
      write (100 on a new, full record) agrees with it. The text label is
      not modelled. */
  datatype Nutrition = Nutrition(maxScore: real, currentScore: real)
  {
    function Percentage(): real
      requires maxScore > 0.0
    {
      currentScore / maxScore * 100.0
    }
  }

  predicate NutritionOk(n: Nutrition)
  {
    n.maxScore > 0.0 && 0.0 <= n.currentScore <= n.maxScore
  }

  /** The `current_score` setter: clamps the value into `[0, max_score]`
      (the percentage it recomputes divides by `max_score`, hence the
      requirement). */
  function SetScore(n: Nutrition, value: real): (r: Nutrition)
    requires n.maxScore > 0.0
    ensures NutritionOk(r) && r.maxScore == n.maxScore
    ensures 0.0 <= value <= n.maxScore ==> r.currentScore == value
    ensures value > n.maxScore ==> r.currentScore == n.maxScore
    ensures value < 0.0 ==> r.currentScore == 0.0
  {
    var v := if value > n.maxScore then n.maxScore else value;
    var v' := if v < 0.0 then 0.0 else v;
    Nutrition(n.maxScore, v')
  }

  /** A cat is hungry, and may get a bonus, exactly when its score is below
      its maximum. */
  predicate Hungry(n: Nutrition)
    requires NutritionOk(n)
  {
    n.Percentage() < 100.0
  }

  lemma HungryBelowMax(n: Nutrition)
    requires NutritionOk(n)
    ensures Hungry(n) <==> n.currentScore < n.maxScore
    ensures n.currentScore == n.maxScore ==> n.Percentage() == 100.0
  {
    ScoreRatio(n.currentScore, n.maxScore);
  }

  /** A score below the maximum is a ratio below one; the maximum itself is one. */
  lemma ScoreRatio(c: real, m: real)
    requires m > 0.0 && 0.0 <= c <= m
    ensures c < m ==> c / m < 1.0
    ensures c == m ==> c / m == 1.0
  {
    var inv := 1.0 / m;
    assert inv * m == 1.0;
    assert c / m == c * inv;
    if c < m {
      assert (m - c) * inv > 0.0;
    }
  }

  /** A prey status: a rank, or the status queens and pregnant cats are fed as. */
  datatype Status = RankStatus(rank: Rank) | QueenPregnant

  /** The configuration feeding reads: the tables of the prey configuration
      and the Clan settings. */
  datatype Config = Config(
    requirement: map<Status, real>,   // PREY_REQUIREMENT
    feedingOrder: seq<Status>,        // FEEDING_ORDER
    conditionIncrease: real,          // CONDITION_INCREASE
    cruelSeason: bool,                // game.clan.game_mode == "cruel season"
    rationPrey: bool,
    autoFeed: bool,
    sickInjuredFirst: bool,
    hunterFirst: bool,
    youngestFirst: bool,
    oldestFirst: bool,
    hungriestFirst: bool,
    experienceFirst: bool,
    highRank: bool)

  /** What the feeding code needs of its tables: positive requirements (the
      setter divides by them), the two entries it always reads, and a
      non-negative sickness surcharge. */
  predicate ConfigOk(cfg: Config)
  {
    (forall st :: st in cfg.requirement ==> cfg.requirement[st] > 0.0)
    && QueenPregnant in cfg.requirement && RankStatus(Warrior) in cfg.requirement
    && cfg.conditionIncrease >= 0.0
  }

  /** The factor `update_nutrition` uses: 2 for babies and for elders older
      than 114 moons, 3 otherwise. */
  function UpdateFactor(c: Cat): real
  {
    if c.rank.IsBaby() || (c.moons > 114 && c.rank == Elder) then 2.0 else 3.0
  }

  /** The factor `add_cat_to_nutrition` uses: 2 for every newborn, kitten and
      elder, 3 otherwise. */
  function NewFactor(c: Cat): real
  {
    if c.rank in {Newborn, Kitten, Elder} then 2.0 else 3.0
  }

  /** The status a cat is fed as: queen/pregnant when it nurses kits or is
      pregnant, its rank otherwise. */
  function PreyStatus(c: Cat, d: QueenDict): Status
  {
    if c.id in d.kits || c.pregnant then QueenPregnant else RankStatus(c.rank)
  }

  /** The record `add_cat_to_nutrition` creates: full, with the maximum
      `requirement × factor`, plus `CONDITION_INCREASE × factor` for a cat
      that cannot work (and is not pregnant) in cruel season. */
  function NewRecord(c: Cat, d: QueenDict, cfg: Config): (n: Nutrition)
    requires ConfigOk(cfg) && PreyStatus(c, d) in cfg.requirement
    ensures NutritionOk(n) && n.currentScore == n.maxScore
    ensures var base := cfg.requirement[PreyStatus(c, d)] * NewFactor(c);
            n.maxScore == if !c.pregnant && c.notWorking && cfg.cruelSeason
                          then base + cfg.conditionIncrease * NewFactor(c) else base
  {
    var factor := NewFactor(c);
    var maxScore := cfg.requirement[PreyStatus(c, d)] * factor;
    PositiveProduct(cfg.requirement[PreyStatus(c, d)], factor);
    var n0 := SetScore(Nutrition(1.0, 0.0), 0.0);
    var n1 := SetScore(n0.(maxScore := maxScore), maxScore);
    if !c.pregnant && c.notWorking && cfg.cruelSeason then
      var extra := cfg.conditionIncrease * factor;
      NonNegativeProduct(cfg.conditionIncrease, factor);
      var n2 := n1.(maxScore := n1.maxScore + extra);
      SetScore(n2, n2.maxScore)
    else n1
  }

  lemma PositiveProduct(a: real, b: real)
    requires a > 0.0 && b > 0.0
    ensures a * b > 0.0
  {
  }

  lemma NonNegativeProduct(a: real, b: real)
    requires a >= 0.0 && b > 0.0
    ensures a * b >= 0.0
  {
  }

  /** A record whose maximum is set to `newMax` with its score scaled along,
      as `update_nutrition` does when the maximum changed. */
  function Rescaled(n: Nutrition, newMax: real): (r: Nutrition)
    requires NutritionOk(n) && newMax > 0.0
    ensures NutritionOk(r) && r.maxScore == newMax
  {
    if n.maxScore != newMax then
      ScaledInRange(n, newMax);
      SetScore(n.(maxScore := newMax), n.currentScore / n.maxScore * newMax)
    else n
  }

  lemma ScaledInRange(n: Nutrition, newMax: real)
    requires NutritionOk(n) && newMax > 0.0
    ensures 0.0 <= n.currentScore / n.maxScore * newMax <= newMax
  {
    assert 0.0 <= n.currentScore / n.maxScore <= 1.0;
  }

  /** A record whose score is the fraction `q` of its maximum is at `q`
      times 100 percent. */
  lemma PercentOf(r: Nutrition, q: real)
    requires r.maxScore > 0.0 && r.currentScore == q * r.maxScore
    ensures r.Percentage() == q * 100.0
  {
    assert q * r.maxScore / r.maxScore == q;
  }

  /** Rescaling a record to a new maximum keeps its percentage. */
  lemma RescaledKeepsPercentage(n: Nutrition, newMax: real)
    requires NutritionOk(n) && newMax > 0.0
    ensures Rescaled(n, newMax).Percentage() == n.Percentage()
  {
    if n.maxScore != newMax {
      RescaledScore(n, newMax);
      PercentOf(Rescaled(n, newMax), n.currentScore / n.maxScore);
    }
  }

  /** The scaled score is never clamped: it is the old fraction of the new
      maximum. */
  lemma RescaledScore(n: Nutrition, newMax: real)
    requires NutritionOk(n) && newMax > 0.0 && n.maxScore != newMax
    ensures Rescaled(n, newMax).currentScore == n.currentScore / n.maxScore * newMax
  {
    ScaledInRange(n, newMax);
    var m := n.(maxScore := newMax);
    assert SetScore(m, n.currentScore / n.maxScore * newMax).currentScore
      == n.currentScore / n.maxScore * newMax;
  }

  /** Records kept by `update_nutrition`: those of cats alive in the Clan
      (every key must be a registered cat: `fetch_cat` is dereferenced). */
  function Pruned(info: map<CatId, Nutrition>, all: seq<Cat>): (r: map<CatId, Nutrition>)
    requires forall id :: id in info ==> Fetch(all, id).Some?
    ensures forall id :: id in r <==> id in info && Fetch(all, id).value.aliveInClan
    ensures forall id :: id in r ==> r[id] == info[id]
  {
    map id | id in info && Fetch(all, id).value.aliveInClan :: info[id]
  }

  predicate RecordsOk(info: map<CatId, Nutrition>)
  {
    forall id :: id in info ==> NutritionOk(info[id])
  }

  /** The ids of the cats in `cats` whose rank has a prey requirement. */
  function TabledIds(cats: seq<Cat>, cfg: Config): (r: set<CatId>)
    ensures forall c :: c in cats && RankStatus(c.rank) in cfg.requirement ==> c.id in r
    ensures forall id :: id in r ==> exists c :: c in cats && c.id == id && RankStatus(c.rank) in cfg.requirement
  {
    if cats == [] then {}
    else
      var c := cats[|cats| - 1];
      assert cats == cats[..|cats| - 1] + [c];
      TabledIds(cats[..|cats| - 1], cfg) + if RankStatus(c.rank) in cfg.requirement then {c.id} else {}
  }

  /** The second loop of `update_nutrition` over `cats`: cats whose rank has
      no requirement are skipped, known cats get the maximum their status and
      factor call for (score rescaled), unknown cats a new record. */
  function UpdateRecords(info: map<CatId, Nutrition>, cats: seq<Cat>, d: QueenDict, cfg: Config): (r: map<CatId, Nutrition>)
    requires ConfigOk(cfg) && RecordsOk(info)
    ensures RecordsOk(r)
    ensures r.Keys == info.Keys + TabledIds(cats, cfg)
  {
    if cats == [] then info
    else
      var front := cats[..|cats| - 1];
      var c := cats[|cats| - 1];
      RecordStep(UpdateRecords(info, front, d, cfg), c, d, cfg)
  }

  /** One cat of `update_nutrition`: skipped when its rank has no
      requirement, its record rescaled to the current maximum when known,
      a new record otherwise. */
  function RecordStep(info: map<CatId, Nutrition>, c: Cat, d: QueenDict, cfg: Config): (r: map<CatId, Nutrition>)
    requires ConfigOk(cfg) && RecordsOk(info)
    ensures RecordsOk(r)
    ensures r.Keys == if RankStatus(c.rank) in cfg.requirement then info.Keys + {c.id} else info.Keys
    ensures forall id :: id in info && id != c.id ==> r[id] == info[id]
  {
    if RankStatus(c.rank) !in cfg.requirement then info
    else if c.id in info then
      info[c.id := Rescaled(info[c.id], cfg.requirement[PreyStatus(c, d)] * UpdateFactor(c))]
    else info[c.id := NewRecord(c, d, cfg)]
  }

  /** The step for a known cat whose rank has a requirement: its record
      rescaled. */
  lemma RecordStepKnown(info: map<CatId, Nutrition>, c: Cat, d: QueenDict, cfg: Config)
    requires ConfigOk(cfg) && RecordsOk(info) && RankStatus(c.rank) in cfg.requirement && c.id in info
    ensures RecordStep(info, c, d, cfg) == info[c.id := Rescaled(info[c.id], cfg.requirement[PreyStatus(c, d)] * UpdateFactor(c))]
  {
  }

  /** The step for a cat new to the records whose rank has a requirement:
      a fresh record. */
  lemma RecordStepNew(info: map<CatId, Nutrition>, c: Cat, d: QueenDict, cfg: Config)
    requires ConfigOk(cfg) && RecordsOk(info) && RankStatus(c.rank) in cfg.requirement && c.id !in info
    ensures RecordStep(info, c, d, cfg) == info[c.id := NewRecord(c, d, cfg)]
  {
  }

  /** A known cat whose rank has a requirement keeps its hunger percentage
      through the update, and its maximum becomes the requirement of its
      status times its factor. */
  lemma RefreshedKeepsPercentage(info: map<CatId, Nutrition>, c: Cat, d: QueenDict, cfg: Config)
    requires ConfigOk(cfg) && RecordsOk(info) && RankStatus(c.rank) in cfg.requirement && c.id in info
    ensures var n := RecordStep(info, c, d, cfg)[c.id];
            n.maxScore == cfg.requirement[PreyStatus(c, d)] * UpdateFactor(c)
            && n.Percentage() == info[c.id].Percentage()
  {
    RecordStepKnown(info, c, d, cfg);
    RescaledKeepsPercentage(info[c.id], cfg.requirement[PreyStatus(c, d)] * UpdateFactor(c));
  }

  /** What `update_nutrition` leaves: records of cats no longer alive in the
      Clan dropped, then `cats` brought up to date; the queens are those of
      `living` (the pile's `living_cats`). */
  function UpdatedNutrition(info: map<CatId, Nutrition>, cats: seq<Cat>, all: seq<Cat>, living: seq<Cat>, cfg: Config): (r: map<CatId, Nutrition>)
    requires ConfigOk(cfg) && RecordsOk(info)
    requires forall id :: id in info ==> Fetch(all, id).Some?
    ensures RecordsOk(r)
  {
    UpdateRecords(Pruned(info, all), cats, Nurseries(all, Babies(living)), cfg)
  }

  /** A record for a cat that is not to be fed again is dropped. */
  lemma DeadRecordDropped(info: map<CatId, Nutrition>, cats: seq<Cat>, all: seq<Cat>, living: seq<Cat>, cfg: Config, id: CatId)
    requires ConfigOk(cfg) && RecordsOk(info)
    requires forall x :: x in info ==> Fetch(all, x).Some?
    requires id in info && !Fetch(all, id).value.aliveInClan
    requires forall c :: c in cats ==> c.id != id
    ensures id !in UpdatedNutrition(info, cats, all, living, cfg)
  {
    UntabledId(cats, cfg, id);
  }

  lemma {:induction false} UntabledId(cats: seq<Cat>, cfg: Config, id: CatId)
    requires forall c :: c in cats ==> c.id != id
    ensures id !in TabledIds(cats, cfg)
  {
    if cats != [] {
      var front := cats[..|cats| - 1];
      assert forall c :: c in front ==> c in cats;
      UntabledId(front, cfg, id);
    }
  }

  /** The elder factors disagree: an elder of at most 114 moons is created
      with factor 2 and the next `update_nutrition` moves it to factor 3,
      keeping its percentage. */
  lemma ElderFactorMismatch(c: Cat, d: QueenDict, cfg: Config)
    requires ConfigOk(cfg) && c.rank == Elder && c.moons <= 114
    requires !c.pregnant && c.id !in d.kits && !(c.notWorking && cfg.cruelSeason)
    requires RankStatus(Elder) in cfg.requirement
    ensures var n := NewRecord(c, d, cfg);
            var u := UpdateRecords(map[c.id := n], [c], d, cfg)[c.id];
            n.maxScore == cfg.requirement[RankStatus(Elder)] * 2.0
            && u.maxScore == cfg.requirement[RankStatus(Elder)] * 3.0
            && u.currentScore == u.maxScore
  {
    var n := NewRecord(c, d, cfg);
    assert [c][..0] == [];
    assert UpdateRecords(map[c.id := n], [], d, cfg) == map[c.id := n];
  }

  /** The sickness surcharge is not part of the maximum `update_nutrition`
      computes, so the first update after creating the record scales it
      away (and the cat, still full, stays at 100%). */
  lemma SurchargeRescaledAway(c: Cat, d: QueenDict, cfg: Config)
    requires ConfigOk(cfg) && RankStatus(c.rank) in cfg.requirement
    requires !c.pregnant && c.notWorking && cfg.cruelSeason && cfg.conditionIncrease > 0.0
    requires NewFactor(c) == UpdateFactor(c)
    ensures var n := NewRecord(c, d, cfg);
            var u := UpdateRecords(map[c.id := n], [c], d, cfg)[c.id];
            n.maxScore > cfg.requirement[PreyStatus(c, d)] * UpdateFactor(c)
            && u.maxScore == cfg.requirement[PreyStatus(c, d)] * UpdateFactor(c)
  {
    var n := NewRecord(c, d, cfg);
    assert [c][..0] == [];
    assert UpdateRecords(map[c.id := n], [], d, cfg) == map[c.id := n];
  }

  // ---------------------------------------------------------------------------
  // The allowance (_feed_group) and the score update (__feed_individual)
  // ---------------------------------------------------------------------------

  /** The surplus bonus for a hungry cat: +2, +1.5, +1 or +0.5 when the pile
      holds strictly more than 2, 1.8, 1.2 or 1 times what the Clan needs,
      tested in that order; nothing for a cat at 100%. */
  function Bonus(total: real, needed: real, hungry: bool): (b: real)
    ensures 0.0 <= b <= 2.0
    ensures !hungry ==> b == 0.0
    ensures needed >= 0.0 && total <= needed ==> b == 0.0
    ensures hungry && total > needed * 2.0 ==> b == 2.0
    ensures hungry && needed * 1.8 < total <= needed * 2.0 ==> b == 1.5
    ensures hungry && needed * 1.2 < total <= needed * 1.8 ==> b == 1.0
    ensures hungry && needed < total <= needed * 1.2 ==> b == 0.5
  {
    if total > needed * 2.0 && hungry then 2.0
    else if total > needed * 1.8 && hungry then 1.5
    else if total > needed * 1.2 && hungry then 1.0
    else if total > needed && hungry then 0.5
    else 0.0
  }

  /** For a Clan that needs something, a fuller pile never lowers the bonus. */
  lemma BonusMonotone(t1: real, t2: real, needed: real, hungry: bool)
    requires needed >= 0.0 && t1 <= t2
    ensures Bonus(t1, needed, hungry) <= Bonus(t2, needed, hungry)
  {
  }

  /** The amount a cat may eat: half its requirement under rationing (except
      newborns), otherwise its requirement plus the surplus bonus. */
  function Allowance(required: real, st: Status, ration: bool, total: real, needed: real, hungry: bool): (a: real)
    requires required > 0.0
    ensures ration && st != RankStatus(Newborn) ==> a == required / 2.0
    ensures !(ration && st != RankStatus(Newborn)) ==> required <= a <= required + 2.0
    ensures a > 0.0
  {
    if ration && st != RankStatus(Newborn) then required / 2.0
    else required + Bonus(total, needed, hungry)
  }

  /** The record after a cat ate `allowed - unmet` of an allowance against a
      requirement of `required`. Manual feeding only adds what was eaten. On
      a tick, an unmet part is subtracted together with any ration deficit; a
      hungry cat that ate everything gains what it ate beyond its
      requirement; a full cat loses only a ration deficit. */
  function ScoreAfter(n: Nutrition, allowed: real, required: real, unmet: real, manual: bool): (r: Nutrition)
    requires NutritionOk(n) && 0.0 <= unmet <= allowed
    ensures NutritionOk(r) && r.maxScore == n.maxScore
    ensures manual ==> r.currentScore == Min(n.maxScore, n.currentScore + (allowed - unmet))
    ensures manual ==> r.currentScore >= n.currentScore
    ensures !manual && unmet > 0.0 ==>
              r.currentScore == Max(0.0, n.currentScore - unmet - Max(0.0, required - allowed))
    ensures !manual && unmet == 0.0 && Hungry(n) ==>
              r.currentScore == Max(0.0, Min(n.maxScore, n.currentScore + (allowed - required)))
    ensures !manual && unmet == 0.0 && !Hungry(n) ==>
              r.currentScore == Max(0.0, n.currentScore - Max(0.0, required - allowed))
    ensures !manual && unmet == 0.0 && !Hungry(n) && allowed >= required ==> r == n
  {
    var deficit := required - allowed;
    if manual then SetScore(n, n.currentScore + (allowed - unmet))
    else if unmet > 0.0 then
      var n1 := SetScore(n, n.currentScore - unmet);
      if deficit > 0.0 then SetScore(n1, n1.currentScore - deficit) else n1
    else if Hungry(n) then SetScore(n, n.currentScore + (allowed - required))
    else if deficit > 0.0 then SetScore(n, n.currentScore - deficit)
    else n
  }

  function Min(a: real, b: real): real { if a <= b then a else b }
  function Max(a: real, b: real): real { if a >= b then a else b }

  // ---------------------------------------------------------------------------
  // The food the Clan needs (_update_needed_food)
  // ---------------------------------------------------------------------------

  /** Kits younger than three moons: those their queen feeds. */
  function YoungKits(kits: seq<Cat>): (r: seq<Cat>)
    ensures forall k :: k in r <==> k in kits && k.moons < 3
  {
    if kits == [] then []
    else
      var k := kits[|kits| - 1];
      assert kits == kits[..|kits| - 1] + [k];
      YoungKits(kits[..|kits| - 1]) + if k.moons < 3 then [k] else []
  }

  /** The queens of `order` counted as nursing by `_update_needed_food`: those
      with a kit younger than three moons, except a registered queen no
      longer alive in the Clan. */
  function NursingQueenCount(d: QueenDict, order: seq<CatId>, all: seq<Cat>): (n: nat)
    requires forall q :: q in order ==> q in d.kits
    ensures n <= |order|
  {
    if order == [] then 0
    else
      var q := order[|order| - 1];
      var f := Fetch(all, q);
      var counted := !(f.Some? && !f.value.aliveInClan) && |YoungKits(d.kits[q])| > 0;
      NursingQueenCount(d, order[..|order| - 1], all) + if counted then 1 else 0
  }

  /** `NursingQueenCount` is the number of queens of `order` that pass
      `NursingTest`. */
  lemma {:induction false} NursingQueensCounted(d: QueenDict, order: seq<CatId>, all: seq<Cat>)
    requires forall q :: q in order ==> q in d.kits
    ensures NursingQueenCount(d, order, all) == Count(order, NursingTest(d, all))
  {
    if order != [] {
      var init, q := order[..|order| - 1], order[|order| - 1];
      assert order == init + [q];
      NursingQueensCounted(d, init, all);
      FilterSnoc(init, q, NursingTest(d, all));
    }
  }

  /** A queen of the dictionary that feeds a kit younger than three moons and
      is not a registered cat gone from the Clan. */
  function NursingTest(d: QueenDict, all: seq<Cat>): CatId -> bool
  {
    (q: CatId) => q in d.kits && !(Fetch(all, q).Some? && !Fetch(all, q).value.aliveInClan) && |YoungKits(d.kits[q])| > 0
  }

  /** Pregnant cats that are not already queens of the dictionary; only those
      alive in the Clan when `aliveOnly`. */
  function PregnantCats(cats: seq<Cat>, d: QueenDict, aliveOnly: bool): (r: seq<Cat>)
    ensures forall c :: c in r <==> c in cats && c.pregnant && c.id !in d.kits && (aliveOnly ==> c.aliveInClan)
  {
    if cats == [] then []
    else
      var c := cats[|cats| - 1];
      assert cats == cats[..|cats| - 1] + [c];
      PregnantCats(cats[..|cats| - 1], d, aliveOnly)
        + if c.pregnant && c.id !in d.kits && (aliveOnly ==> c.aliveInClan) then [c] else []
  }

  /** `PregnantCats` is the list filtered by `PregnantTest`, in order. */
  lemma {:induction false} PregnantCatsFiltered(cats: seq<Cat>, d: QueenDict, aliveOnly: bool)
    ensures PregnantCats(cats, d, aliveOnly) == Filter(cats, PregnantTest(d, aliveOnly))
  {
    if cats != [] {
      var init, c := cats[..|cats| - 1], cats[|cats| - 1];
      assert cats == init + [c];
      PregnantCatsFiltered(init, d, aliveOnly);
      FilterSnoc(init, c, PregnantTest(d, aliveOnly));
    }
  }

  /** A pregnant cat that is not a queen of the dictionary, and alive in the
      Clan when `aliveOnly`. */
  function PregnantTest(d: QueenDict, aliveOnly: bool): Cat -> bool
  {
    (c: Cat) => c.pregnant && c.id !in d.kits && (aliveOnly ==> c.aliveInClan)
  }

  /** Every cat of `cats` alive in the Clan has a rank with a requirement
      (otherwise the table lookup raises KeyError). */
  predicate RanksKnown(cats: seq<Cat>, cfg: Config)
  {
    forall c :: c in cats && c.aliveInClan ==> RankStatus(c.rank) in cfg.requirement
  }

  /** The requirements of the alive cats of `cats`, babies left out when
      `adultsOnly`. */
  function RankNeed(cats: seq<Cat>, cfg: Config, adultsOnly: bool): (r: real)
    requires ConfigOk(cfg) && RanksKnown(cats, cfg)
    ensures r >= 0.0
  {
    if cats == [] then 0.0
    else
      var c := cats[|cats| - 1];
      assert cats == cats[..|cats| - 1] + [c];
      RankNeed(cats[..|cats| - 1], cfg, adultsOnly)
        + if c.aliveInClan && !(adultsOnly && c.rank.IsBaby()) then cfg.requirement[RankStatus(c.rank)] else 0.0
  }

  /** Cats that cannot work and are not pregnant (alive or not: the source
      does not filter this list). */
  function SickCount(cats: seq<Cat>): (n: nat)
    ensures n <= |cats|
  {
    if cats == [] then 0
    else
      var c := cats[|cats| - 1];
      SickCount(cats[..|cats| - 1]) + if c.notWorking && !c.pregnant then 1 else 0
  }

  /** `SickCount` is the number of cats that pass `OffDutyNotPregnant`. */
  lemma {:induction false} SickCounted(cats: seq<Cat>)
    ensures SickCount(cats) == Count(cats, OffDutyNotPregnant)
  {
    if cats != [] {
      var init, c := cats[..|cats| - 1], cats[|cats| - 1];
      assert cats == init + [c];
      SickCounted(init);
      FilterSnoc(init, c, OffDutyNotPregnant);
    }
  }

  /** A cat that cannot work and is not pregnant. */
  predicate OffDutyNotPregnant(c: Cat)
  {
    c.notWorking && !c.pregnant
  }

  /** The requirements of two lists of cats add up. */
  lemma {:induction false} RankNeedAppend(a: seq<Cat>, b: seq<Cat>, cfg: Config, adultsOnly: bool)
    requires ConfigOk(cfg) && RanksKnown(a + b, cfg)
    ensures RanksKnown(a, cfg) && RanksKnown(b, cfg)
    ensures RankNeed(a + b, cfg, adultsOnly) == RankNeed(a, cfg, adultsOnly) + RankNeed(b, cfg, adultsOnly)
    decreases |b|
  {
    assert forall c :: c in a || c in b ==> c in a + b;
    if b != [] {
      var init := b[..|b| - 1];
      assert (a + b)[..|a + b| - 1] == a + init;
      assert forall c :: c in a + init ==> c in a + b;
      RankNeedAppend(a, init, cfg, adultsOnly);
    } else {
      assert a + b == a;
    }
  }


  lemma OrphansKnown(all: seq<Cat>, living: seq<Cat>, cfg: Config)
    requires RanksKnown(living, cfg)
    ensures RanksKnown(Orphans(all, Babies(living)), cfg)
  {
    forall c | c in Orphans(all, Babies(living)) && c.aliveInClan
      ensures RankStatus(c.rank) in cfg.requirement
    {
      OrphansMember(all, Babies(living), c);
      BabiesMember(living, c);
    }
  }

  /** `needed_prey` as `_update_needed_food(cats)` computes it, with the queen
      dictionary taken from `living` (the pile's `living_cats`): the
      requirements of the alive adults, the sickness surcharge in cruel
      season, the queen's extra over a warrior for every nursing queen and
      every pregnant cat, and the requirements of the kits without an alive
      parent. */
  function NeededFood(cats: seq<Cat>, living: seq<Cat>, all: seq<Cat>, cfg: Config): (r: real)
    requires ConfigOk(cfg) && RanksKnown(cats, cfg) && RanksKnown(living, cfg)
  {
    var d := Nurseries(all, Babies(living));
    NeedTotal(cats, NursingQueenCount(d, d.order, all) + |PregnantCats(cats, d, true)|, OrphanNeed(all, living, cfg), cfg)
  }

  /** `NeededFood` from the queen count and the orphans' need. */
  lemma NeededFromParts(cats: seq<Cat>, living: seq<Cat>, all: seq<Cat>, cfg: Config, queenCount: nat, kitsNeed: real)
    requires ConfigOk(cfg) && RanksKnown(cats, cfg) && RanksKnown(living, cfg)
    requires var d := Nurseries(all, Babies(living));
             queenCount == NursingQueenCount(d, d.order, all) + |PregnantCats(cats, d, true)|
    requires kitsNeed == OrphanNeed(all, living, cfg)
    ensures NeededFood(cats, living, all, cfg) == NeedTotal(cats, queenCount, kitsNeed, cfg)
  {
  }

  /** The sum of `_update_needed_food` once the queens are counted and the
      need of the kits without an alive parent is known. */
  function NeedTotal(cats: seq<Cat>, queenCount: nat, kitsNeed: real, cfg: Config): real
    requires ConfigOk(cfg) && RanksKnown(cats, cfg)
  {
    var extra := cfg.requirement[QueenPregnant] - cfg.requirement[RankStatus(Warrior)];
    var sick := if cfg.cruelSeason then Times(SickCount(cats), cfg.conditionIncrease) else 0.0;
    RankNeed(cats, cfg, true) + sick + Times(queenCount, extra) + kitsNeed
  }

  /** One alive, working, not pregnant warrior more raises the Clan's need by
      exactly a warrior's requirement. */
  lemma WarriorAddsOwnNeed(cats: seq<Cat>, living: seq<Cat>, all: seq<Cat>, cfg: Config, w: Cat)
    requires ConfigOk(cfg) && RanksKnown(cats, cfg) && RanksKnown(living, cfg)
    requires w.rank == Warrior && w.aliveInClan && !w.notWorking && !w.pregnant
    ensures RanksKnown(cats + [w], cfg)
    ensures NeededFood(cats + [w], living, all, cfg)
            == NeededFood(cats, living, all, cfg) + cfg.requirement[RankStatus(Warrior)]
  {
    var cw := cats + [w];
    WarriorCounts(cats, w, cfg);
    var d := Nurseries(all, Babies(living));
    var q := NursingQueenCount(d, d.order, all) + |PregnantCats(cats, d, true)|;
    var kn := OrphanNeed(all, living, cfg);
    NeededFromParts(cats, living, all, cfg, q, kn);
    NeededFromParts(cw, living, all, cfg, q, kn);
  }

  /** Appending such a warrior leaves the pregnant and the sick as they were
      and adds a warrior's requirement to the adults' need. */
  lemma WarriorCounts(cats: seq<Cat>, w: Cat, cfg: Config)
    requires ConfigOk(cfg) && RanksKnown(cats, cfg)
    requires w.rank == Warrior && w.aliveInClan && !w.notWorking && !w.pregnant
    ensures RanksKnown(cats + [w], cfg)
    ensures forall d :: PregnantCats(cats + [w], d, true) == PregnantCats(cats, d, true)
    ensures SickCount(cats + [w]) == SickCount(cats)
    ensures RankNeed(cats + [w], cfg, true) == RankNeed(cats, cfg, true) + cfg.requirement[RankStatus(Warrior)]
  {
    var cw := cats + [w];
    assert cw[..|cw| - 1] == cats && cw[|cw| - 1] == w;
    assert forall c :: c in cw ==> c in cats || c == w;
  }

  /** The requirements of the alive kits of `living` without an alive parent. */
  function OrphanNeed(all: seq<Cat>, living: seq<Cat>, cfg: Config): (r: real)
    requires ConfigOk(cfg) && RanksKnown(living, cfg)
    ensures r >= 0.0
  {
    OrphansKnown(all, living, cfg);
    RankNeed(Orphans(all, Babies(living)), cfg, false)
  }

  /** When a queen needs at least what a warrior needs, the Clan needs at
      least the requirements of its alive adults, plus those of its kits
      without an alive parent. */
  lemma NeededCoversAdults(cats: seq<Cat>, living: seq<Cat>, all: seq<Cat>, cfg: Config)
    requires ConfigOk(cfg) && RanksKnown(cats, cfg) && RanksKnown(living, cfg)
    requires cfg.requirement[QueenPregnant] >= cfg.requirement[RankStatus(Warrior)]
    ensures NeededFood(cats, living, all, cfg) >= RankNeed(cats, cfg, true)
  {
    OrphansKnown(all, living, cfg);
  }

  /** `n` times `a` (a count multiplied by an amount). */
  function Times(n: nat, a: real): (r: real)
    ensures a >= 0.0 ==> r >= 0.0
  {
    if n == 0 then 0.0 else Times(n - 1, a) + a
  }

  /** The cats of a registry alive in the Clan (the list `amount_food_needed`
      builds from `Cat.all_cats`). */
  function AliveCats(all: seq<Cat>): (r: seq<Cat>)
    ensures forall c :: c in r <==> c in all && c.aliveInClan
  {
    if all == [] then []
    else
      var c := all[|all| - 1];
      assert all == all[..|all| - 1] + [c];
      AliveCats(all[..|all| - 1]) + if c.aliveInClan then [c] else []
  }

  /** `AliveCats` is the registry filtered by `InClan`, in order. */
  lemma {:induction false} AliveCatsFiltered(all: seq<Cat>)
    ensures AliveCats(all) == Filter(all, InClan)
  {
    if all != [] {
      var init, c := all[..|all| - 1], all[|all| - 1];
      assert all == init + [c];
      AliveCatsFiltered(init);
      FilterSnoc(init, c, InClan);
    }
  }

  predicate InClan(c: Cat)
  {
    c.aliveInClan
  }

  /** A Clan of one warrior, neither sick nor pregnant, with no kits, needs
      exactly a warrior's requirement. */
  lemma LoneWarriorNeed(w: Cat, cfg: Config)
    requires ConfigOk(cfg) && w.rank == Warrior && w.aliveInClan && !w.pregnant && !w.notWorking
    ensures NeededFood([w], [w], [w], cfg) == cfg.requirement[RankStatus(Warrior)]
  {
    assert [w][..0] == [];
    assert Babies([w]) == [];
    assert Nurseries([w], []) == QueenDict([], map[]);
    assert PregnantCats([w], QueenDict([], map[]), true) == [];
    assert Orphans([w], []) == [];
    assert RankNeed([w], cfg, true) == cfg.requirement[RankStatus(Warrior)];
    assert SickCount([w]) == 0;
    assert NursingQueenCount(QueenDict([], map[]), [], [w]) == 0;
  }

  // ---------------------------------------------------------------------------
  // Queens and the kits they feed (_find_kitten_and_queen)
  // ---------------------------------------------------------------------------

  /** The young kits of the queens of `order`, queen after queen. */
  function NursedKits(d: QueenDict, order: seq<CatId>): seq<Cat>
    requires forall q :: q in order ==> q in d.kits
  {
    if order == [] then []
    else NursedKits(d, order[..|order| - 1]) + YoungKits(d.kits[order[|order| - 1]])
  }

  /** The queens of `order` with a kit younger than three moons, as fetched
      from the registry. */
  function NursingQueens(d: QueenDict, order: seq<CatId>, all: seq<Cat>): (r: seq<Cat>)
    requires forall q :: q in order ==> q in d.kits && Fetch(all, q).Some?
    ensures forall c :: c in r ==> c in all && c.id in order
  {
    if order == [] then []
    else
      var q := order[|order| - 1];
      NursingQueens(d, order[..|order| - 1], all)
        + if |YoungKits(d.kits[q])| > 0 then [Fetch(all, q).value] else []
  }

  lemma QueensRegistered(all: seq<Cat>, kits: seq<Cat>)
    ensures forall q :: q in Nurseries(all, kits).order ==> q in Nurseries(all, kits).kits && Fetch(all, q).Some?
  {
    var d := Nurseries(all, kits);
    forall q | q in d.order
      ensures q in d.kits && Fetch(all, q).Some?
    {
      assert q in (set x | x in d.order);
      NurseriesQueensRegistered(all, kits, q);
    }
  }

  /** `_find_kitten_and_queen(cats)`: the kits their queen feeds and the cats
      fed as queens (nursing queens, then pregnant cats that nurse nothing). */
  function KittensAndQueens(cats: seq<Cat>, all: seq<Cat>): (seq<Cat>, seq<Cat>)
  {
    var d := Nurseries(all, Babies(cats));
    QueensRegistered(all, Babies(cats));
    (NursedKits(d, d.order), NursingQueens(d, d.order, all) + PregnantCats(cats, d, false))
  }

  lemma {:induction false} NursedKitsMember(d: QueenDict, order: seq<CatId>, k: Cat)
    requires forall q :: q in order ==> q in d.kits
    ensures k in NursedKits(d, order) <==> k.moons < 3 && exists q :: q in order && k in d.kits[q]
  {
    if order != [] {
      var front := order[..|order| - 1];
      var q := order[|order| - 1];
      assert forall x :: x in order <==> x in front || x == q by {
        assert order == front + [q];
      }
      NursedKitsMember(d, front, k);
    }
  }

  /** The kits a queen feeds are exactly the alive babies of `cats` younger
      than three moons that have an alive parent. */
  lemma FedKitsAreNursedYoung(cats: seq<Cat>, all: seq<Cat>, k: Cat)
    ensures k in KittensAndQueens(cats, all).0 <==>
              k in cats && k.aliveInClan && k.rank.IsBaby() && k.moons < 3 && !Orphan(all, k)
  {
    var d := Nurseries(all, Babies(cats));
    QueensRegistered(all, Babies(cats));
    NursedKitsMember(d, d.order, k);
    BabiesMember(cats, k);
    if k in KittensAndQueens(cats, all).0 {
      var q :| q in d.order && k in d.kits[q];
      assert k in KitsOf(d, q);
      NurseriesKits(all, Babies(cats), q, k);
    }
    if k in cats && k.aliveInClan && k.rank.IsBaby() && k.moons < 3 && !Orphan(all, k) {
      var q := Mother(all, k);
      NurseriesKits(all, Babies(cats), q, k);
      assert q in d.kits;
      assert q in (set x | x in d.order);
    }
  }

  // ---------------------------------------------------------------------------
  // One feeding pass (_feed_group, __feed_individual)
  // ---------------------------------------------------------------------------

  /** The part of the pile's state a feeding pass changes. */
  datatype PassState = PassState(store: Store, nutrition: map<CatId, Nutrition>, alreadyFed: seq<CatId>, neededPrey: real)

  /** What a pass reads but does not change: the configuration, the manual
      flag, whether eating is suppressed (a tick with auto-feed off), the
      kits fed by their queen, the cats fed as queens, and what
      `amount_food_needed` returns. */
  datatype Env = Env(cfg: Config, manual: bool, suppressed: bool, fedKits: set<CatId>, queens: set<CatId>, needed: real)

  ghost predicate StateOk(s: PassState)
  {
    StoreOk(s.store) && RecordsOk(s.nutrition)
  }

  /** A cat `_feed_group` passes over: fed already in this pass, or a baby
      its queen feeds. */
  predicate Skipped(s: PassState, c: Cat, env: Env)
  {
    c.id in s.alreadyFed || (c.rank.IsBaby() && c.id in env.fedKits)
  }

  /** The status a cat is fed as. */
  function FedAs(c: Cat, env: Env): Status
  {
    if c.id in env.queens then QueenPregnant else RankStatus(c.rank)
  }

  /** A cat `_feed_group` can serve without a KeyError. */
  predicate Ready(s: PassState, c: Cat, env: Env)
  {
    Skipped(s, c, env) || (FedAs(c, env) in env.cfg.requirement && c.id in s.nutrition)
  }

  /** One iteration of `_feed_group` with the `__feed_individual` it calls:
      the allowance is drawn soonest-to-expire first and the record updated. */
  function FeedOne(s: PassState, c: Cat, env: Env): (r: PassState)
    requires StateOk(s) && ConfigOk(env.cfg) && Ready(s, c, env)
    ensures StateOk(r) && r.nutrition.Keys == s.nutrition.Keys && NoFuller(r.store, s.store)
    ensures Skipped(s, c, env) ==> r == s
    ensures !Skipped(s, c, env) ==> r.alreadyFed == s.alreadyFed + [c.id] && r.neededPrey == env.needed
    ensures forall id :: id in s.nutrition && id != c.id ==> r.nutrition[id] == s.nutrition[id]
    ensures env.manual ==> forall id :: id in s.nutrition ==> r.nutrition[id].currentScore >= s.nutrition[id].currentScore
    ensures env.suppressed ==> r.store == s.store
  {
    if Skipped(s, c, env) then s
    else
      var st := FedAs(c, env);
      var required := env.cfg.requirement[st];
      var n := s.nutrition[c.id];
      var allowed := Allowance(required, st, env.cfg.rationPrey, s.store.total, env.needed, Hungry(n));
      var eaten := Eat(s.store, 0, allowed, env.suppressed);
      var n' := ScoreAfter(n, allowed, required, eaten.1, env.manual);
      var info := s.nutrition[c.id := n'];
      RecordUpdated(s.nutrition, c.id, n');
      PassState(eaten.0, info, s.alreadyFed + [c.id], env.needed)
  }

  lemma RecordUpdated(info: map<CatId, Nutrition>, id: CatId, n: Nutrition)
    requires RecordsOk(info) && id in info && NutritionOk(n)
    ensures RecordsOk(info[id := n]) && info[id := n].Keys == info.Keys
    ensures forall x :: x in info && x != id ==> info[id := n][x] == info[x]
    ensures n.currentScore >= info[id].currentScore ==>
              forall x :: x in info ==> info[id := n][x].currentScore >= info[x].currentScore
  {
  }

  /** Serving a cat keeps every other cat servable. */
  lemma ReadyKept(s: PassState, r: PassState, c: Cat, env: Env)
    requires Ready(s, c, env) && r.nutrition.Keys == s.nutrition.Keys
    requires s.alreadyFed <= r.alreadyFed
    ensures Ready(r, c, env)
  {
    if c.id in s.alreadyFed {
      assert c.id in r.alreadyFed;
    }
  }

  predicate AllReady(s: PassState, group: seq<Cat>, env: Env)
  {
    forall c :: c in group ==> Ready(s, c, env)
  }

  /** `_feed_group(group)`: the cats served one after the other. */
  function FeedGroupSpec(s: PassState, group: seq<Cat>, env: Env): (r: PassState)
    requires StateOk(s) && ConfigOk(env.cfg) && AllReady(s, group, env)
    ensures StateOk(r) && r.nutrition.Keys == s.nutrition.Keys && NoFuller(r.store, s.store)
    ensures s.alreadyFed <= r.alreadyFed
    ensures forall c :: c in group ==> Skipped(r, c, env)
    ensures env.manual ==> forall id :: id in s.nutrition ==> r.nutrition[id].currentScore >= s.nutrition[id].currentScore
    ensures env.suppressed ==> r.store == s.store
    decreases |group|
  {
    if group == [] then s
    else
      var front := group[..|group| - 1];
      var c := group[|group| - 1];
      LastSplit(group);
      var s' := FeedGroupSpec(s, front, env);
      ReadyKept(s, s', c, env);
      FeedOne(s', c, env)
  }

  /** Feeding two groups one after the other is feeding their concatenation. */
  lemma {:induction false} FeedGroupAppend(s: PassState, a: seq<Cat>, b: seq<Cat>, env: Env)
    requires StateOk(s) && ConfigOk(env.cfg) && AllReady(s, a + b, env)
    ensures AllReady(s, a, env)
    ensures AllReady(FeedGroupSpec(s, a, env), b, env)
    ensures FeedGroupSpec(s, a + b, env) == FeedGroupSpec(FeedGroupSpec(s, a, env), b, env)
    decreases |b|
  {
    assert forall x :: x in a ==> x in a + b;
    var sa := FeedGroupSpec(s, a, env);
    forall x | x in b
      ensures Ready(sa, x, env)
    {
      assert x in a + b;
      ReadyKept(s, sa, x, env);
    }
    if b != [] {
      var front := b[..|b| - 1];
      assert (a + b)[..|a + b| - 1] == a + front;
      assert (a + b)[|a + b| - 1] == b[|b| - 1];
      assert forall x :: x in a + front ==> x in a + b;
      FeedGroupAppend(s, a, front, env);
    } else {
      assert a + b == a;
    }
  }

  /** A pass never serves a cat twice. */
  lemma {:induction false} FedOnce(s: PassState, group: seq<Cat>, env: Env)
    requires StateOk(s) && ConfigOk(env.cfg) && AllReady(s, group, env)
    requires NoDup(s.alreadyFed)
    ensures NoDup(FeedGroupSpec(s, group, env).alreadyFed)
    decreases |group|
  {
    if group != [] {
      var front := group[..|group| - 1];
      var c := group[|group| - 1];
      assert forall x :: x in front ==> x in group;
      FedOnce(s, front, env);
      var s' := FeedGroupSpec(s, front, env);
      ReadyKept(s, s', c, env);
      assert FeedGroupSpec(s, group, env) == FeedOne(s', c, env);
      if !Skipped(s', c, env) {
        NoDupSnoc(s'.alreadyFed, c.id);
      }
    }
  }

  // ---------------------------------------------------------------------------
  // Feeding orders (the tactics)
  // ---------------------------------------------------------------------------

  /** `_feed_sick_injured`: the ill or injured cats, in order. */
  function SickCats(cats: seq<Cat>): (r: seq<Cat>)
    ensures forall c :: c in r <==> c in cats && (c.ill || c.injured)
  {
    if cats == [] then []
    else
      var c := cats[|cats| - 1];
      assert cats == cats[..|cats| - 1] + [c];
      SickCats(cats[..|cats| - 1]) + if c.ill || c.injured then [c] else []
  }

  /** `SickCats` is the list filtered by `IllOrInjured`, in order. */
  lemma {:induction false} SickCatsFiltered(cats: seq<Cat>)
    ensures SickCats(cats) == Filter(cats, IllOrInjured)
  {
    if cats != [] {
      var init, c := cats[..|cats| - 1], cats[|cats| - 1];
      assert cats == init + [c];
      SickCatsFiltered(init);
      FilterSnoc(init, c, IllOrInjured);
    }
  }

  predicate IllOrInjured(c: Cat)
  {
    c.ill || c.injured
  }

  /** The test of `_feed_hunters` for search rank `t`: the primary skill is a
      hunter skill of tier `t` or, failing that, the secondary one is. */
  predicate HunterAt(c: Cat, t: int)
  {
    c.skills.Some?
    && ((c.skills.value.primary.Some? && c.skills.value.primary.value.path == Hunter && c.skills.value.primary.value.tier == t)
        || (c.skills.value.secondary.Some? && c.skills.value.secondary.value.path == Hunter && c.skills.value.secondary.value.tier == t))
  }

  /** The search rank at which `_feed_hunters` picks a cat, 0 for never. */
  function TierOf(c: Cat): int
  {
    if HunterAt(c, 1) then 1 else if HunterAt(c, 2) then 2 else if HunterAt(c, 3) then 3 else 0
  }

  function TierKey(c: Cat): real { TierOf(c) as real }

  /** The cats of `cats` picked at search rank `t`, in order. */
  function Tiered(cats: seq<Cat>, t: int): (r: seq<Cat>)
    ensures forall c :: c in r <==> c in cats && HunterAt(c, t)
  {
    if cats == [] then []
    else
      var c := cats[|cats| - 1];
      assert cats == cats[..|cats| - 1] + [c];
      Tiered(cats[..|cats| - 1], t) + if HunterAt(c, t) then [c] else []
  }

  /** The cats of `cats` left in the list after search rank `t`. */
  function Untiered(cats: seq<Cat>, t: int): (r: seq<Cat>)
    ensures forall c :: c in r <==> c in cats && !HunterAt(c, t)
  {
    if cats == [] then []
    else
      var c := cats[|cats| - 1];
      assert cats == cats[..|cats| - 1] + [c];
      Untiered(cats[..|cats| - 1], t) + if HunterAt(c, t) then [] else [c]
  }

  /** Each cat of the list is either picked at search rank `t` or left. */
  lemma {:induction false} TierSplit(cats: seq<Cat>, t: int)
    ensures multiset(Untiered(cats, t)) + multiset(Tiered(cats, t)) == multiset(cats)
  {
    if cats != [] {
      var front := cats[..|cats| - 1];
      TierSplit(front, t);
      SplitLast(cats, Untiered(front, t), Tiered(front, t), Untiered(cats, t), Tiered(cats, t));
    }
  }

  /** `_feed_hunters(cats)`: the hunters it feeds, in the order it feeds them,
      and what is left of the caller's list. A found cat is inserted at the
      front, so the best tier comes first and, within a tier, the list's
      order is reversed. */
  function HuntersFirst(cats: seq<Cat>): (r: (seq<Cat>, seq<Cat>))
    ensures forall x :: x in r.0 || x in r.1 ==> x in cats
  {
    var l1 := Untiered(cats, 1);
    var l2 := Untiered(l1, 2);
    (Reverse(Tiered(l2, 3)) + Reverse(Tiered(l1, 2)) + Reverse(Tiered(cats, 1)), Untiered(l2, 3))
  }

  /** The hunters come best tier first. */
  lemma HuntersBestTierFirst(cats: seq<Cat>)
    ensures SortedBy(HuntersFirst(cats).0, TierKey, true)
  {
    var l1 := Untiered(cats, 1);
    var l2 := Untiered(l1, 2);
    var a, b, c := Reverse(Tiered(l2, 3)), Reverse(Tiered(l1, 2)), Reverse(Tiered(cats, 1));
    forall x | x in a ensures TierOf(x) == 3 {
      assert x in Tiered(l2, 3);
    }
    forall x | x in b ensures TierOf(x) == 2 {
      assert x in Tiered(l1, 2);
    }
    forall x | x in c ensures TierOf(x) == 1 {
      assert x in Tiered(cats, 1);
    }
    BlocksSorted(a, b, c);
  }

  /** The hunters and what is left of the caller's list are, together, the
      cats of the list; the list keeps exactly the cats no search rank
      picks. */
  lemma HuntersSplitList(cats: seq<Cat>)
    ensures multiset(HuntersFirst(cats).0) + multiset(HuntersFirst(cats).1) == multiset(cats)
    ensures forall c :: c in HuntersFirst(cats).1 <==> c in cats && TierOf(c) == 0
  {
    var l1 := Untiered(cats, 1);
    var l2 := Untiered(l1, 2);
    TierSplit(cats, 1);
    TierSplit(l1, 2);
    TierSplit(l2, 3);
    ReverseElements(Tiered(l2, 3));
    ReverseElements(Tiered(l1, 2));
    ReverseElements(Tiered(cats, 1));
    assert multiset(HuntersFirst(cats).0)
        == multiset(Tiered(l2, 3)) + multiset(Tiered(l1, 2)) + multiset(Tiered(cats, 1));
  }

  lemma BlocksSorted(a: seq<Cat>, b: seq<Cat>, c: seq<Cat>)
    requires forall x :: x in a ==> TierOf(x) == 3
    requires forall x :: x in b ==> TierOf(x) == 2
    requires forall x :: x in c ==> TierOf(x) == 1
    ensures SortedBy(a + b + c, TierKey, true)
  {
    var s := a + b + c;
    forall i, j | 0 <= i < j < |s|
      ensures Precedes(s[i], s[j], TierKey, true)
    {
      assert s[i] in a || s[i] in b || s[i] in c;
      assert s[j] in a || s[j] in b || s[j] in c;
      if i < |a| {
        assert s[i] in a;
      } else if i < |a| + |b| {
        assert s[i] == b[i - |a|];
        assert s[j] == (b + c)[j - |a|];
      } else {
        assert s[i] == c[i - |a| - |b|] && s[j] == c[j - |a| - |b|];
      }
    }
  }

  function Experience(c: Cat): real { c.experience as real }

  /** The cats of `cats` with rank `rk` whose ID is not in `excluded`. */
  function OfRank(cats: seq<Cat>, rk: Rank, excluded: set<CatId>): (r: seq<Cat>)
    ensures forall c :: c in r <==> c in cats && c.rank == rk && c.id !in excluded
  {
    if cats == [] then []
    else
      var c := cats[|cats| - 1];
      assert cats == cats[..|cats| - 1] + [c];
      OfRank(cats[..|cats| - 1], rk, excluded) + if c.rank == rk && c.id !in excluded then [c] else []
  }

  /** The group `_feed_by_rank` feeds for one entry of the feeding order: the
      queens for queen/pregnant, the babies of that rank not fed by a queen,
      or the cats of that rank that are not fed as queens. */
  function RankGroup(cats: seq<Cat>, st: Status, queens: seq<Cat>, env: Env): seq<Cat>
  {
    if st == QueenPregnant then queens
    else if st.rank.IsBaby() then OfRank(cats, st.rank, env.fedKits)
    else OfRank(cats, st.rank, env.queens)
  }

  /** `_feed_by_rank` over the statuses of `order`: each group youngest first. */
  function RankOrder(cats: seq<Cat>, order: seq<Status>, queens: seq<Cat>, env: Env): (r: seq<Cat>)
    ensures forall x :: x in r ==> x in cats || x in queens
  {
    if order == [] then []
    else
      var g := RankGroup(cats, order[|order| - 1], queens, env);
      assert forall x :: x in SortBy(g, Moons, false) ==> x in multiset(g);
      RankOrder(cats, order[..|order| - 1], queens, env) + SortBy(g, Moons, false)
  }

  /** A cat `_feed_by_rank` would put in the group of `st`. */
  predicate InGroup(c: Cat, st: Status, cats: seq<Cat>, queens: seq<Cat>, env: Env)
  {
    if st == QueenPregnant then c in queens
    else c in cats && c.rank == st.rank && c.id !in (if st.rank.IsBaby() then env.fedKits else env.queens)
  }

  /** The rank tactic serves exactly the queens (when queen/pregnant is in
      the order) and the cats whose rank is in the order, babies fed by a
      queen and cats fed as queens left to their own groups. */
  lemma {:induction false} RankOrderMembers(cats: seq<Cat>, order: seq<Status>, queens: seq<Cat>, env: Env, x: Cat)
    ensures x in RankOrder(cats, order, queens, env) <==> exists st :: st in order && InGroup(x, st, cats, queens, env)
  {
    if order != [] {
      var front := order[..|order| - 1];
      var st := order[|order| - 1];
      assert forall y :: y in order <==> y in front || y == st by {
        assert order == front + [st];
      }
      RankOrderMembers(cats, front, queens, env, x);
      var g := RankGroup(cats, st, queens, env);
      SortByCorrect(g, Moons, false);
      assert x in SortBy(g, Moons, false) <==> x in g by {
        assert x in SortBy(g, Moons, false) <==> x in multiset(g);
      }
      assert x in g <==> InGroup(x, st, cats, queens, env);
      if x in RankOrder(cats, order, queens, env) {
        if x in RankOrder(cats, front, queens, env) {
          var st' :| st' in front && InGroup(x, st', cats, queens, env);
          assert st' in order;
        } else {
          assert InGroup(x, st, cats, queens, env);
        }
      }
      if exists st' :: st' in order && InGroup(x, st', cats, queens, env) {
        var st' :| st' in order && InGroup(x, st', cats, queens, env);
        if st' != st {
          assert st' in front;
        }
      }
    }
  }

  /** Ties within a rank are broken youngest first whichever way the ranks
      are walked: two cats of the same rank that are not fed as queens come
      out in ascending moons, given an order without repeated statuses. */
  lemma {:induction false} SameRankYoungestFirst(cats: seq<Cat>, order: seq<Status>, queens: seq<Cat>, env: Env, i: nat, j: nat)
    requires NoDup(order) && (forall q :: q in queens ==> q.id in env.queens)
    requires i < j < |RankOrder(cats, order, queens, env)|
    requires RankOrder(cats, order, queens, env)[i].rank == RankOrder(cats, order, queens, env)[j].rank
    requires RankOrder(cats, order, queens, env)[i].id !in env.queens && RankOrder(cats, order, queens, env)[j].id !in env.queens
    ensures RankOrder(cats, order, queens, env)[i].moons <= RankOrder(cats, order, queens, env)[j].moons
  {
    var front := order[..|order| - 1];
    var st := order[|order| - 1];
    var a := RankOrder(cats, front, queens, env);
    var g := SortBy(RankGroup(cats, st, queens, env), Moons, false);
    SameRankSameGroup(cats, order, queens, env, i, j);
    if j < |a| {
      AppendIndex(a, g, i);
      AppendIndex(a, g, j);
      NoDupInit(order);
      SameRankYoungestFirst(cats, front, queens, env, i, j);
    }
    ConcatAscending(a, RankGroup(cats, st, queens, env), g, i, j);
  }

  /** Ascending moons at `i` and `j` of groups followed by one more group
      sorted youngest first, when both positions fall on the same side. */
  lemma ConcatAscending(a: seq<Cat>, group: seq<Cat>, g: seq<Cat>, i: nat, j: nat)
    requires g == SortBy(group, Moons, false) && i < j < |a| + |g| && (j < |a| || |a| <= i)
    requires j < |a| ==> a[i].moons <= a[j].moons
    ensures (a + g)[i].moons <= (a + g)[j].moons
  {
    AppendIndex(a, g, i);
    AppendIndex(a, g, j);
    if |a| <= i {
      YoungestFirstAt(group, g, i - |a|, j - |a|);
    }
  }

  /** Two cats of the same rank, neither fed as a queen, are both in the
      groups before the last status or both in its group. */
  lemma SameRankSameGroup(cats: seq<Cat>, order: seq<Status>, queens: seq<Cat>, env: Env, i: nat, j: nat)
    requires NoDup(order) && (forall q :: q in queens ==> q.id in env.queens)
    requires i < j < |RankOrder(cats, order, queens, env)|
    requires RankOrder(cats, order, queens, env)[i].rank == RankOrder(cats, order, queens, env)[j].rank
    requires RankOrder(cats, order, queens, env)[i].id !in env.queens && RankOrder(cats, order, queens, env)[j].id !in env.queens
    ensures order != []
    ensures var a := RankOrder(cats, order[..|order| - 1], queens, env);
            var g := SortBy(RankGroup(cats, order[|order| - 1], queens, env), Moons, false);
            RankOrder(cats, order, queens, env) == a + g && (j < |a| || |a| <= i)
  {
    var front := order[..|order| - 1];
    var st := order[|order| - 1];
    var a := RankOrder(cats, front, queens, env);
    var g := SortBy(RankGroup(cats, st, queens, env), Moons, false);
    assert RankOrder(cats, order, queens, env) == a + g;
    AppendIndex(a, g, i);
    AppendIndex(a, g, j);
    if i < |a| <= j {
      NoDupInit(order);
      SortByCorrect(RankGroup(cats, st, queens, env), Moons, false);
      assert g[j - |a|] in multiset(RankGroup(cats, st, queens, env));
      CrossGroupsDiffer(cats, front, st, queens, env, a[i], g[j - |a|]);
      assert false;
    }
  }

  /** A group sorted youngest first has ascending moons. */
  lemma YoungestFirstAt(group: seq<Cat>, sorted: seq<Cat>, i: nat, j: nat)
    requires sorted == SortBy(group, Moons, false) && i < j < |sorted|
    ensures sorted[i].moons <= sorted[j].moons
  {
    SortByCorrect(group, Moons, false);
    assert Precedes(sorted[i], sorted[j], Moons, false);
  }

  /** A cat of the groups of `front` and a cat of the group of a status not
      in `front`, neither fed as a queen, differ in rank. */
  lemma CrossGroupsDiffer(cats: seq<Cat>, front: seq<Status>, st: Status, queens: seq<Cat>, env: Env, x: Cat, y: Cat)
    requires st !in front && (forall q :: q in queens ==> q.id in env.queens)
    requires x in RankOrder(cats, front, queens, env) && y in RankGroup(cats, st, queens, env)
    requires x.id !in env.queens && y.id !in env.queens
    ensures x.rank != y.rank
  {
    RankOrderMembers(cats, front, queens, env, x);
    var st' :| st' in front && InGroup(x, st', cats, queens, env);
    assert st' != QueenPregnant && st != QueenPregnant;
  }

  /** The cats whose record is (or is not, when `hungry` is false) below 100%. */
  function HungryCats(cats: seq<Cat>, info: map<CatId, Nutrition>, hungry: bool): (r: seq<Cat>)
    requires forall c :: c in cats ==> c.id in info && NutritionOk(info[c.id])
    ensures forall c :: c in r <==> c in cats && Hungry(info[c.id]) == hungry
  {
    if cats == [] then []
    else
      var c := cats[|cats| - 1];
      assert cats == cats[..|cats| - 1] + [c];
      assert c in cats && NutritionOk(info[c.id]);
      HungryCats(cats[..|cats| - 1], info, hungry) + if Hungry(info[c.id]) == hungry then [c] else []
  }

  /** The percentage of a cat's record (0 for a cat without one). */
  function PercentKey(info: map<CatId, Nutrition>): Cat -> real
  {
    (c: Cat) => if c.id in info && info[c.id].maxScore > 0.0 then info[c.id].Percentage() else 0.0
  }

  /** `_feed_by_hungry_first` as intended: nothing for no cats; the rank
      tactic when nobody is hungry; otherwise the hungry cats lowest
      percentage first, then the rank tactic over the others. */
  function HungryOrder(cats: seq<Cat>, info: map<CatId, Nutrition>, order: seq<Status>, queens: seq<Cat>, env: Env): (r: seq<Cat>)
    requires forall c :: c in cats ==> c.id in info && NutritionOk(info[c.id])
    ensures forall x :: x in r ==> x in cats || x in queens
  {
    if cats == [] then []
    else if HungryCats(cats, info, true) == [] then RankOrder(cats, order, queens, env)
    else
      var h := HungryCats(cats, info, true);
      assert forall x :: x in SortBy(h, PercentKey(info), false) ==> x in multiset(h);
      SortBy(h, PercentKey(info), false) + RankOrder(HungryCats(cats, info, false), order, queens, env)
  }

  /** `sorted(hungry, key=lambda x: nutrition_info[x.ID])` as written: the key
      is the record itself, which defines no ordering, so sorting two or
      more records raises TypeError (None); a single cat needs no
      comparison. */
  function HungrySortAsWritten(hungry: seq<Cat>): (r: Option<seq<Cat>>)
  {
    if |hungry| < 2 then Some(hungry) else None
  }

  /** `_feed_by_hungry_first` as written; None is the TypeError. */
  function HungryOrderAsWritten(cats: seq<Cat>, info: map<CatId, Nutrition>, order: seq<Status>, queens: seq<Cat>, env: Env): Option<seq<Cat>>
    requires forall c :: c in cats ==> c.id in info && NutritionOk(info[c.id])
  {
    if cats == [] then Some([])
    else if HungryCats(cats, info, true) == [] then Some(RankOrder(cats, order, queens, env))
    else
      var sorted := HungrySortAsWritten(HungryCats(cats, info, true));
      if sorted.None? then None
      else Some(sorted.value + RankOrder(HungryCats(cats, info, false), order, queens, env))
  }

  /** Two hungry cats are enough to make the tactic as written raise, while
      with fewer it agrees with the intended order. */
  lemma HungrySortRaises(cats: seq<Cat>, info: map<CatId, Nutrition>, order: seq<Status>, queens: seq<Cat>, env: Env)
    requires forall c :: c in cats ==> c.id in info && NutritionOk(info[c.id])
    ensures |HungryCats(cats, info, true)| >= 2 ==> HungryOrderAsWritten(cats, info, order, queens, env).None?
    ensures |HungryCats(cats, info, true)| < 2 ==> HungryOrderAsWritten(cats, info, order, queens, env) == Some(HungryOrder(cats, info, order, queens, env))
  {
    var h := HungryCats(cats, info, true);
    if |h| == 1 {
      assert h == [h[0]] && h[1..] == [];
      assert SortBy(h, PercentKey(info), false) == Insert(h[0], SortBy([], PercentKey(info), false), PercentKey(info), false);
      assert SortBy(h, PercentKey(info), false) == h;
    }
  }

  /** The records of the concrete case below: 50% and 25%. */
  function TwoRecords(): map<CatId, Nutrition>
  {
    map[1 := Nutrition(6.0, 3.0), 2 := Nutrition(8.0, 2.0)]
  }

  lemma TwoWarriorsHungry(a: Cat, b: Cat)
    requires a.id == 1 && b.id == 2
    ensures HungryCats([a, b], TwoRecords(), true) == [a, b]
    ensures HungryCats([a, b], TwoRecords(), false) == []
  {
    var info := TwoRecords();
    HungryBelowMax(info[1]);
    HungryBelowMax(info[2]);
    BothHungry(a, b, info);
  }

  /** Two cats whose records are both below 100% are both hungry, in order. */
  lemma BothHungry(a: Cat, b: Cat, info: map<CatId, Nutrition>)
    requires a.id in info && NutritionOk(info[a.id]) && Hungry(info[a.id])
    requires b.id in info && NutritionOk(info[b.id]) && Hungry(info[b.id])
    ensures HungryCats([a, b], info, true) == [a, b]
    ensures HungryCats([a, b], info, false) == []
  {
    assert [a, b][..1] == [a];
    assert HungryCats([a], info, true) == [a];
    assert HungryCats([a], info, false) == [];
  }

  /** A concrete case: two hungry warriors make the tactic as written
      raise. */
  lemma TwoHungryWarriorsRaise(a: Cat, b: Cat, env: Env)
    requires a.id == 1 && b.id == 2
    ensures HungryOrderAsWritten([a, b], TwoRecords(), [RankStatus(Warrior)], [], env).None?
  {
    TwoWarriorsHungry(a, b);
  }

  /** The same case as intended: the warrior at 25% eats before the one at
      50%. */
  lemma TwoHungryWarriorsIntended(a: Cat, b: Cat, env: Env)
    requires a.id == 1 && b.id == 2 && a.rank == Warrior && b.rank == Warrior
    ensures HungryOrder([a, b], TwoRecords(), [RankStatus(Warrior)], [], env) == [b, a]
  {
    TwoWarriorsHungry(a, b);
    TwoKeys(a, b);
    SortPair(a, b, PercentKey(TwoRecords()));
    NoneToRank(env);
    assert [b, a] + [] == [b, a];
  }

  /** The percentages of the two records: 50 and 25. */
  lemma TwoKeys(a: Cat, b: Cat)
    requires a.id == 1 && b.id == 2
    ensures PercentKey(TwoRecords())(a) == 50.0 && PercentKey(TwoRecords())(b) == 25.0
  {
  }

  /** With no cats left the rank tactic feeds nobody. */
  lemma NoneToRank(env: Env)
    ensures RankOrder([], [RankStatus(Warrior)], [], env) == []
  {
    assert OfRank([], Warrior, env.queens) == [];
    assert SortBy([], Moons, false) == [];
    assert [RankStatus(Warrior)][..0] == [];
  }

  /** Sorting two cats ascending puts the one with the smaller key first. */
  lemma SortPair(a: Cat, b: Cat, key: Cat -> real)
    requires key(b) < key(a)
    ensures SortBy([a, b], key, false) == [b, a]
  {
    assert SortBy([b], key, false) == [b] by {
      assert [b][1..] == [];
    }
    assert SortBy([a, b], key, false) == Insert(a, SortBy([b], key, false), key, false) by {
      assert [a, b][1..] == [b];
    }
    assert Insert(a, [b], key, false) == [b] + Insert(a, [], key, false);
  }

  /** The intended hungry order serves every hungry cat first, lowest
      percentage first. */
  lemma HungriestServedFirst(cats: seq<Cat>, info: map<CatId, Nutrition>, order: seq<Status>, queens: seq<Cat>, env: Env)
    requires forall c :: c in cats ==> c.id in info && NutritionOk(info[c.id])
    requires HungryCats(cats, info, true) != []
    ensures var h := HungryCats(cats, info, true);
            var r := HungryOrder(cats, info, order, queens, env);
            |h| <= |r| && multiset(r[..|h|]) == multiset(h) && SortedBy(r[..|h|], PercentKey(info), false)
  {
    var h := HungryCats(cats, info, true);
    SortByCorrect(h, PercentKey(info), false);
    var sorted := SortBy(h, PercentKey(info), false);
    assert |sorted| == |h| by {
      assert |multiset(sorted)| == |multiset(h)|;
    }
    var r := HungryOrder(cats, info, order, queens, env);
    assert r[..|h|] == sorted;
  }

  /** The tactic chosen by the settings: youngest first, oldest first,
      hungriest first, most experienced first, high rank first, or (the
      default) low rank first. */
  function TacticOrder(cats: seq<Cat>, info: map<CatId, Nutrition>, queens: seq<Cat>, env: Env): (r: seq<Cat>)
    requires forall c :: c in cats ==> c.id in info && NutritionOk(info[c.id])
    ensures forall x :: x in r ==> x in cats || x in queens
  {
    var cfg := env.cfg;
    if cfg.youngestFirst then SortBy(cats, Moons, false)
    else if cfg.oldestFirst then SortBy(cats, Moons, true)
    else if cfg.hungriestFirst then HungryOrder(cats, info, cfg.feedingOrder, queens, env)
    else if cfg.experienceFirst then SortBy(cats, Experience, true)
    else if cfg.highRank then RankOrder(cats, Reverse(cfg.feedingOrder), queens, env)
    else RankOrder(cats, cfg.feedingOrder, queens, env)
  }

  // ---------------------------------------------------------------------------
  // What a served cat experiences
  // ---------------------------------------------------------------------------

  /** The parts of serving a cat that is not skipped. */
  lemma FeedOneServed(s: PassState, c: Cat, env: Env)
    requires StateOk(s) && ConfigOk(env.cfg) && Ready(s, c, env) && !Skipped(s, c, env)
    ensures var required := env.cfg.requirement[FedAs(c, env)];
            var n := s.nutrition[c.id];
            var allowed := Allowance(required, FedAs(c, env), env.cfg.rationPrey, s.store.total, env.needed, Hungry(n));
            var eaten := Eat(s.store, 0, allowed, env.suppressed);
            FeedOne(s, c, env)
            == PassState(eaten.0, s.nutrition[c.id := ScoreAfter(n, allowed, required, eaten.1, env.manual)],
                         s.alreadyFed + [c.id], env.needed)
  {
  }

  /** A store whose total is 0 has every sub-pile empty. */
  lemma EmptyStore(st: Store)
    requires StoreOk(st) && st.total == 0.0
    ensures forall b :: st.pile[b] == 0.0
  {
    var p := st.pile;
    assert p[In1] >= 0.0 && p[In2] >= 0.0 && p[In3] >= 0.0 && p[In4] >= 0.0;
    assert p[In1] + p[In2] + p[In3] + p[In4] == 0.0;
    assert p[In1] == 0.0 && p[In2] == 0.0 && p[In3] == 0.0 && p[In4] == 0.0;
    forall b ensures p[b] == 0.0 {
      match b
      case In1 =>
      case In2 =>
      case In3 =>
      case In4 =>
    }
  }

  /** A cat that finds the pile empty eats nothing and loses its requirement
      (the score does not go below 0). */
  lemma EmptyPileStarves(s: PassState, c: Cat, env: Env)
    requires StateOk(s) && ConfigOk(env.cfg) && Ready(s, c, env) && !Skipped(s, c, env)
    requires s.store.total == 0.0 && env.needed >= 0.0 && !env.manual && !env.cfg.rationPrey
    ensures FeedOne(s, c, env).nutrition[c.id].currentScore
            == Max(0.0, s.nutrition[c.id].currentScore - env.cfg.requirement[FedAs(c, env)])
    ensures FeedOne(s, c, env).store == s.store
  {
    FeedOneServed(s, c, env);
    var required := env.cfg.requirement[FedAs(c, env)];
    var n := s.nutrition[c.id];
    var allowed := Allowance(required, FedAs(c, env), false, 0.0, env.needed, Hungry(n));
    assert allowed == required;
    var eaten := Eat(s.store, 0, allowed, env.suppressed);
    assert eaten.0.pile[In1] >= 0.0 && eaten.0.pile[In2] >= 0.0 && eaten.0.pile[In3] >= 0.0 && eaten.0.pile[In4] >= 0.0;
    assert eaten.1 == allowed;
    EmptyStore(s.store);
    EmptyStore(eaten.0);
    assert eaten.0.pile == s.store.pile;
  }

  /** Under rationing a cat other than a newborn eats half its requirement
      when the pile holds that much, and its score drops by that half. */
  lemma RationingHalves(s: PassState, c: Cat, env: Env)
    requires StateOk(s) && ConfigOk(env.cfg) && Ready(s, c, env) && !Skipped(s, c, env)
    requires env.cfg.rationPrey && FedAs(c, env) != RankStatus(Newborn)
    requires !env.manual && !env.suppressed
    requires s.store.total >= env.cfg.requirement[FedAs(c, env)] / 2.0
    ensures var r := FeedOne(s, c, env);
            var half := env.cfg.requirement[FedAs(c, env)] / 2.0;
            r.store.total == s.store.total - half
            && r.nutrition[c.id].currentScore == Max(0.0, s.nutrition[c.id].currentScore - half)
  {
    FeedOneServed(s, c, env);
    var required := env.cfg.requirement[FedAs(c, env)];
    DrainEnough(s.store, required / 2.0, false);
  }

  /** With more than twice what the Clan needs in the pile, a hungry cat gets
      two extra pieces and, when they are there, eats them: its score rises
      by 2. */
  lemma SurplusBonus(s: PassState, c: Cat, env: Env)
    requires StateOk(s) && ConfigOk(env.cfg) && Ready(s, c, env) && !Skipped(s, c, env)
    requires !env.cfg.rationPrey && !env.manual && !env.suppressed && env.needed >= 0.0
    requires Hungry(s.nutrition[c.id]) && s.store.total > env.needed * 2.0
    requires s.store.total >= env.cfg.requirement[FedAs(c, env)] + 2.0
    ensures var r := FeedOne(s, c, env);
            r.store.total == s.store.total - (env.cfg.requirement[FedAs(c, env)] + 2.0)
            && r.nutrition[c.id].currentScore == Min(s.nutrition[c.id].maxScore, s.nutrition[c.id].currentScore + 2.0)
  {
    var st := FedAs(c, env);
    var required := env.cfg.requirement[st];
    var n := s.nutrition[c.id];
    var allowed := Allowance(required, st, false, s.store.total, env.needed, true);
    assert allowed == required + 2.0;
    DrainEnough(s.store, allowed, false);
    var eaten := Eat(s.store, 0, allowed, false);
    assert FeedOne(s, c, env) == PassState(eaten.0, s.nutrition[c.id := ScoreAfter(n, allowed, required, eaten.1, false)], s.alreadyFed + [c.id], env.needed);
  }

  function IdSet(cats: seq<Cat>): set<CatId>
  {
    set c | c in cats :: c.id
  }

  /** A kit younger than three moons with an alive parent is left to its
      queen: serving it changes nothing. */
  lemma NursedKitNotServed(s: PassState, cats: seq<Cat>, all: seq<Cat>, k: Cat, env: Env)
    requires StateOk(s) && ConfigOk(env.cfg) && Ready(s, k, env)
    requires env.fedKits == IdSet(KittensAndQueens(cats, all).0)
    requires k in cats && k.aliveInClan && k.rank.IsBaby() && k.moons < 3 && !Orphan(all, k)
    ensures FeedOne(s, k, env) == s
  {
    FedKitsAreNursedYoung(cats, all, k);
    assert k.id in IdSet(KittensAndQueens(cats, all).0);
  }

  // ---------------------------------------------------------------------------
  // A whole feed_cats
  // ---------------------------------------------------------------------------

  /** Every cat of the list has a rank with a requirement (`_feed_group` and
      the hungry tactic raise KeyError otherwise). */
  predicate Tabled(cats: seq<Cat>, cfg: Config)
  {
    forall c :: c in cats ==> RankStatus(c.rank) in cfg.requirement
  }

  /** What `feed_cats(cats)` needs to run without an error. */
  ghost predicate FeedPre(s: PassState, cats: seq<Cat>, living: seq<Cat>, all: seq<Cat>, cfg: Config)
  {
    ConfigOk(cfg) && StateOk(s)
    && (forall id :: id in s.nutrition ==> Fetch(all, id).Some?)
    && Tabled(cats, cfg) && RanksKnown(AliveCats(all), cfg) && RanksKnown(living, cfg)
    && (forall q :: q in KittensAndQueens(cats, all).1 ==> q.id in UpdatedNutrition(s.nutrition, cats, all, living, cfg))
  }

  /** The priority group of the settings and what is left of the list. */
  function Priority(cats: seq<Cat>, cfg: Config): (r: (seq<Cat>, seq<Cat>))
    ensures forall c :: c in r.0 || c in r.1 ==> c in cats
  {
    if cfg.sickInjuredFirst then (SickCats(cats), cats)
    else if cfg.hunterFirst then HuntersFirst(cats)
    else ([], cats)
  }

  /** The environment of the pass: `needed` is what `amount_food_needed`
      returns, which reads the queens of `living` (the pile's list of living
      cats, the caller's own list when they are the same object). */
  function PassEnv(cats: seq<Cat>, living: seq<Cat>, all: seq<Cat>, cfg: Config, manual: bool, tick: bool): Env
    requires ConfigOk(cfg) && RanksKnown(AliveCats(all), cfg) && RanksKnown(living, cfg)
  {
    var kq := KittensAndQueens(cats, all);
    Env(cfg, manual, tick && !cfg.autoFeed, IdSet(kq.0), IdSet(kq.1), NeededFood(AliveCats(all), living, all, cfg))
  }

  lemma ListReady(s: PassState, cats: seq<Cat>, queens: seq<Cat>, env: Env)
    requires ConfigOk(env.cfg) && Tabled(cats, env.cfg)
    requires forall c :: c in cats ==> c.id in s.nutrition
    requires forall q :: q in queens ==> q.id in s.nutrition && q.id in env.queens
    ensures forall c :: c in cats || c in queens ==> Ready(s, c, env)
  {
  }

  /** `feed_cats(cats)`: records brought up to date, the priority group fed,
      then the tactic's order; also what is left of the caller's list (the
      hunter priority removes its hunters from it). `aliased` says the
      pile's `living_cats` is that same list. */
  function FeedCatsSpec(s: PassState, cats: seq<Cat>, living: seq<Cat>, aliased: bool, all: seq<Cat>,
                        cfg: Config, manual: bool, tick: bool): (r: (PassState, seq<Cat>))
    requires FeedPre(s, cats, living, all, cfg) && (aliased ==> living == cats)
    ensures StateOk(r.0) && NoFuller(r.0.store, s.store)
    ensures r.0.nutrition.Keys == UpdatedNutrition(s.nutrition, cats, all, living, cfg).Keys
    ensures s.alreadyFed <= r.0.alreadyFed
    ensures manual ==> forall id :: id in r.0.nutrition ==>
              r.0.nutrition[id].currentScore >= UpdatedNutrition(s.nutrition, cats, all, living, cfg)[id].currentScore
    ensures tick && !cfg.autoFeed ==> r.0.store == s.store
    ensures r.1 == Priority(cats, cfg).1
  {
    var info := UpdatedNutrition(s.nutrition, cats, all, living, cfg);
    var split := Priority(cats, cfg);
    var living' := if aliased then split.1 else living;
    assert RanksKnown(living', cfg);
    (FeedOrdered(s.(nutrition := info), cats, living', all, cfg, manual, tick), split.1)
  }

  /** The listed cats and the queens have records, and every rank that
      matters has a requirement. */
  ghost predicate OrderedPre(s: PassState, cats: seq<Cat>, living: seq<Cat>, all: seq<Cat>, cfg: Config)
  {
    ConfigOk(cfg) && StateOk(s) && Tabled(cats, cfg) && RanksKnown(AliveCats(all), cfg) && RanksKnown(living, cfg)
    && (forall c :: c in cats ==> c.id in s.nutrition)
    && (forall q :: q in KittensAndQueens(cats, all).1 ==> q.id in s.nutrition)
  }

  /** `feed_cats` in two parts: the records brought up to date, then the
      feeding, with the pile's living list as the priority step left it. */
  lemma FeedCatsSplit(s: PassState, cats: seq<Cat>, living: seq<Cat>, aliased: bool, all: seq<Cat>,
                      cfg: Config, manual: bool, tick: bool)
    requires FeedPre(s, cats, living, all, cfg) && (aliased ==> living == cats)
    ensures var s1 := s.(nutrition := UpdatedNutrition(s.nutrition, cats, all, living, cfg));
            var living' := if aliased then Priority(cats, cfg).1 else living;
            OrderedPre(s1, cats, living', all, cfg)
            && FeedCatsSpec(s, cats, living, aliased, all, cfg, manual, tick)
               == (FeedOrdered(s1, cats, living', all, cfg, manual, tick), Priority(cats, cfg).1)
  {
  }

  /** The feeding of `feed_cats` once the records are up to date: the
      priority group, then the tactic's order over what is left. `living`
      is the pile's living list after the priority step. */
  function FeedOrdered(s: PassState, cats: seq<Cat>, living: seq<Cat>, all: seq<Cat>, cfg: Config, manual: bool, tick: bool): (r: PassState)
    requires OrderedPre(s, cats, living, all, cfg)
    ensures StateOk(r) && NoFuller(r.store, s.store) && r.nutrition.Keys == s.nutrition.Keys
    ensures s.alreadyFed <= r.alreadyFed
    ensures manual ==> forall id :: id in r.nutrition ==> r.nutrition[id].currentScore >= s.nutrition[id].currentScore
    ensures tick && !cfg.autoFeed ==> r.store == s.store
  {
    var kq := KittensAndQueens(cats, all);
    var split := Priority(cats, cfg);
    var env := PassEnv(cats, living, all, cfg, manual, tick);
    ListReady(s, cats, kq.1, env);
    var s2 := FeedGroupSpec(s, split.0, env);
    ListReady(s2, cats, kq.1, env);
    FeedGroupSpec(s2, TacticOrder(split.1, s2.nutrition, kq.1, env), env)
  }

  /** `time_skip`: the pile aged one moon along its dictionary order `keys`
      and its total recomputed, the fed list cleared, the living cats fed as
      a tick (not a manual feeding), then the prey needed recomputed for what
      is left of the list, which is the Clan's living list itself. */
  function TimeSkipSpec(s: PassState, keys: seq<Bucket>, living: seq<Cat>, all: seq<Cat>, cfg: Config): (r: (PassState, seq<Cat>))
    requires FeedPre(s, living, living, all, cfg)
    ensures StateOk(r.0) && r.1 == Priority(living, cfg).1
    ensures r.0.nutrition.Keys == UpdatedNutrition(s.nutrition, living, all, living, cfg).Keys
    ensures !cfg.autoFeed ==> r.0.store.pile == Rotate(s.store.pile, keys, 0.0)
  {
    var s1 := Aged(s, keys);
    assert FeedPre(s1, living, living, all, cfg);
    var fed := FeedCatsSpec(s1, living, living, true, all, cfg, false, true);
    (fed.0.(neededPrey := NeededFood(fed.1, fed.1, all, cfg)), fed.1)
  }

  /** The pile aged and the fed list cleared: what `time_skip` feeds from. */
  function Aged(s: PassState, keys: seq<Bucket>): (r: PassState)
    requires StateOk(s)
    ensures StateOk(r) && r.nutrition == s.nutrition
  {
    var aged := Rotate(s.store.pile, keys, 0.0);
    PassState(Store(aged, PileSum(aged)), s.nutrition, [], s.neededPrey)
  }

  /** Ageing the pile keeps what `feed_cats` needs. */
  lemma TickKeepsFeedPre(s: PassState, keys: seq<Bucket>, living: seq<Cat>, all: seq<Cat>, cfg: Config)
    requires FeedPre(s, living, living, all, cfg)
    ensures FeedPre(Aged(s, keys), living, living, all, cfg)
  {
  }

  /** `time_skip` in parts: the feeding from the aged pile, then the prey
      needed recomputed for what is left of the list. */
  lemma TimeSkipSplit(s: PassState, keys: seq<Bucket>, living: seq<Cat>, all: seq<Cat>, cfg: Config)
    requires FeedPre(s, living, living, all, cfg)
    ensures FeedPre(Aged(s, keys), living, living, all, cfg)
    ensures var fed := FeedCatsSpec(Aged(s, keys), living, living, true, all, cfg, false, true);
            RanksKnown(fed.1, cfg)
            && TimeSkipSpec(s, keys, living, all, cfg) == (fed.0.(neededPrey := NeededFood(fed.1, fed.1, all, cfg)), fed.1)
  {
  }

  /** Without auto-feeding, a time skip in the order of a new pile only ages
      the prey: every sub-pile moves one moon closer to expiry, the oldest
      prey is gone and the total falls by exactly that amount. */
  lemma TimeSkipAgesOnly(s: PassState, living: seq<Cat>, all: seq<Cat>, cfg: Config)
    requires FeedPre(s, living, living, all, cfg) && !cfg.autoFeed
    ensures var r := TimeSkipSpec(s, FreshOrder, living, all, cfg).0.store;
            r.pile[In4] == 0.0 && r.pile[In3] == s.store.pile[In4] && r.pile[In2] == s.store.pile[In3]
            && r.pile[In1] == s.store.pile[In2] && r.total == s.store.total - s.store.pile[In1]
  {
    AgeOneMoon(s.store.pile);
  }
}
