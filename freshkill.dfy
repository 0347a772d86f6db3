/** The `FreshkillPile` class of scripts/clan_resources/freshkill.py: the
    pile dictionary with its running total, the nutrition records and the
    per-pass bookkeeping, updated in place by its methods. Every method is
    proved against the value-level definitions of module FreshkillSpec.
    The Clan settings, the prey configuration and the registry of cats
    (`Cat.all_cats`) are globals in the source; here they are the parameters
    `cfg` and `all`. Cats are compared by ID, which stands for object
    identity. */
module Freshkill {
  import opened Common
  import opened ClanCats
  import opened FreshkillSpec

  /** A Python list of cats the caller owns; `_feed_hunters` removes cats
      from it, and `time_skip` stores the same list as `living_cats`. */
  class CatList {
    var items: seq<Cat>

    constructor (items: seq<Cat>)
      ensures this.items == items
    {
      this.items := items;
    }
  }

  /** The dictionary order of a pile holds each sub-pile once. */
  predicate KeyOrder(keys: seq<Bucket>)
  {
    NoDup(keys) && forall b :: b in keys
  }

  lemma FreshOrderKeys()
    ensures KeyOrder(FreshOrder)
  {
    forall b ensures b in FreshOrder {
      match b
      case In1 => assert FreshOrder[3] == In1;
      case In2 => assert FreshOrder[2] == In2;
      case In3 => assert FreshOrder[1] == In3;
      case In4 => assert FreshOrder[0] == In4;
    }
  }

  /** The pile `__init__` creates holds the start amount and nothing else. */
  lemma NewPileOk(startAmount: real)
    requires startAmount >= 0.0
    ensures StoreOk(Store(map[In4 := startAmount, In3 := 0.0, In2 := 0.0, In1 := 0.0], startAmount))
  {
    var p := map[In4 := startAmount, In3 := 0.0, In2 := 0.0, In1 := 0.0];
    forall b ensures b in p && p[b] >= 0.0 {
      match b
      case In1 =>
      case In2 =>
      case In3 =>
      case In4 =>
    }
  }

  /** The pile with the sub-piles of `ks` set to 0. */
  function ZeroKeys(p: Pile, ks: seq<Bucket>): (r: Pile)
    ensures r.Keys == p.Keys
  {
    map b | b in p :: if b in ks then 0.0 else p[b]
  }

  /** Adding one more key to the summed prefix. */
  lemma ZeroKeysStep(p: Pile, ks: seq<Bucket>, k: Bucket)
    requires Complete(p) && k !in ks
    ensures Complete(ZeroKeys(p, ks))
    ensures PileSum(ZeroKeys(p, ks + [k])) == PileSum(ZeroKeys(p, ks)) - p[k]
  {
    var z := ZeroKeys(p, ks);
    assert ZeroKeys(p, ks + [k]) == z[k := 0.0];
    PileSumUpdate(z, k, 0.0);
  }

  /** Summing the values in dictionary order gives the sum of the pile. */
  lemma SumInKeyOrder(p: Pile, keys: seq<Bucket>)
    requires Complete(p) && KeyOrder(keys)
    ensures PileSum(ZeroKeys(p, keys)) == 0.0
    ensures ZeroKeys(p, []) == p
  {
    var z := ZeroKeys(p, keys);
    assert z[In1] == 0.0 && z[In2] == 0.0 && z[In3] == 0.0 && z[In4] == 0.0;
  }

  class FreshkillPile {
    var pile: Pile
    var keys: seq<Bucket>                    // the dictionary order of `pile`
    var totalAmount: real
    var timeskipFeed: bool
    var nutritionInfo: map<CatId, Nutrition>
    var livingCats: CatList
    var alreadyFed: seq<CatId>
    var neededPrey: real
    var fedKits: seq<Cat>
    var queens: seq<Cat>
    var isManualFeeding: bool

    /** Every sub-pile present, none negative, the total their sum, each key
        once in the dictionary order, every record within its bounds. */
    ghost predicate Valid()
      reads this
    {
      StoreOk(Store(pile, totalAmount)) && KeyOrder(keys) && RecordsOk(nutritionInfo)
    }

    /** The state a feeding pass works on. */
    function Abs(): PassState
      reads this
    {
      PassState(Store(pile, totalAmount), nutritionInfo, alreadyFed, neededPrey)
    }

    /** The fields a feeding pass reads but does not change. */
    function Context(): (seq<Bucket>, bool, CatList, seq<Cat>, seq<Cat>, bool)
      reads this
    {
      (keys, timeskipFeed, livingCats, fedKits, queens, isManualFeeding)
    }

    /** `__init__`: a loaded pile (a non-empty dictionary, `keyOrder` its key
        order) with its total summed up, or a new pile holding the start
        amount in `expires_in_4`. */
    constructor (loaded: Pile, keyOrder: seq<Bucket>, startAmount: real)
      requires loaded != map[] ==> Complete(loaded) && (forall b :: loaded[b] >= 0.0) && KeyOrder(keyOrder)
      requires startAmount >= 0.0
      ensures Valid()
      ensures loaded != map[] ==> pile == loaded && keys == keyOrder && totalAmount == PileSum(loaded)
      ensures loaded == map[] ==> pile == map[In4 := startAmount, In3 := 0.0, In2 := 0.0, In1 := 0.0]
                                  && keys == FreshOrder && totalAmount == startAmount
      ensures !timeskipFeed && nutritionInfo == map[] && fresh(livingCats) && livingCats.items == []
      ensures alreadyFed == [] && neededPrey == 0.0 && fedKits == [] && queens == [] && !isManualFeeding
    {
      if loaded != map[] {
        var total := 0.0;
        SumInKeyOrder(loaded, keyOrder);
        for i := 0 to |keyOrder|
          invariant total + PileSum(ZeroKeys(loaded, keyOrder[..i])) == PileSum(loaded)
        {
          assert keyOrder[..i + 1] == keyOrder[..i] + [keyOrder[i]];
          assert keyOrder[i] !in keyOrder[..i];
          ZeroKeysStep(loaded, keyOrder[..i], keyOrder[i]);
          total := total + loaded[keyOrder[i]];
        }
        assert keyOrder[..|keyOrder|] == keyOrder;
        pile := loaded;
        keys := keyOrder;
        totalAmount := total;
      } else {
        var newPile := map[In4 := startAmount, In3 := 0.0, In2 := 0.0, In1 := 0.0];
        NewPileOk(startAmount);
        pile := newPile;
        FreshOrderKeys();
        keys := FreshOrder;
        totalAmount := startAmount;
      }
      timeskipFeed := false;
      nutritionInfo := map[];
      livingCats := new CatList([]);
      alreadyFed := [];
      neededPrey := 0.0;
      fedKits := [];
      queens := [];
      isManualFeeding := false;
    }

    /** `add_freshkill`: new prey goes to `expires_in_4`. */
    method AddFreshkill(amount: real)
      requires Valid() && amount >= 0.0
      modifies this
      ensures Valid() && Context() == old(Context())
      ensures pile == old(pile)[In4 := old(pile)[In4] + amount]
      ensures totalAmount == old(totalAmount) + amount
      ensures nutritionInfo == old(nutritionInfo) && alreadyFed == old(alreadyFed) && neededPrey == old(neededPrey)
    {
      PileSumUpdate(pile, In4, pile[In4] + amount);
      pile := pile[In4 := pile[In4] + amount];
      totalAmount := totalAmount + amount;
    }

    /** `take_from_pile`: takes what it can of `given` from one sub-pile and
        returns what is still missing; nothing is taken on a tick with
        auto-feed off. */
    method TakeFromPile(g: Bucket, given: real, cfg: Config) returns (remaining: real)
      requires Valid() && given >= 0.0
      modifies this
      ensures Valid() && Context() == old(Context())
      ensures (Store(pile, totalAmount), remaining)
              == Take(old(Store(pile, totalAmount)), g, given, timeskipFeed && !cfg.autoFeed)
      ensures nutritionInfo == old(nutritionInfo) && alreadyFed == old(alreadyFed) && neededPrey == old(neededPrey)
    {
      var s;
      s, remaining := TakeFrom(Store(pile, totalAmount), g, given, timeskipFeed && !cfg.autoFeed);
      pile := s.pile;
      totalAmount := s.total;
    }

    /** The steps of `take_from_pile` on the pile dictionary and its total. */
    static method TakeFrom(s: Store, g: Bucket, given: real, suppressed: bool) returns (t: Store, remaining: real)
      requires StoreOk(s) && given >= 0.0
      ensures (t, remaining) == Take(s, g, given, suppressed)
    {
      t := s;
      if suppressed {
        return t, given;
      }
      if given == 0.0 {
        return t, given;
      }
      remaining := given;
      if s.pile[g] >= given {
        PileSumUpdate(s.pile, g, s.pile[g] - given);
        t := Store(s.pile[g := s.pile[g] - given], s.total - given);
        remaining := 0.0;
      } else if s.pile[g] > 0.0 {
        PileSumUpdate(s.pile, g, 0.0);
        remaining := given - s.pile[g];
        t := Store(s.pile[g := 0.0], s.total - s.pile[g]);
      }
    }

    /** `remove_freshkill`: draws `amount` from the sub-piles in `order`,
        soonest to expire first, or in the shuffled order `take_random`
        asks for (the shuffle is the caller's `order`). */
    method RemoveFreshkill(amount: real, order: seq<Bucket>, cfg: Config)
      requires Valid() && amount >= 0.0 && KeyOrder(order)
      modifies this
      ensures Valid() && Context() == old(Context())
      ensures Store(pile, totalAmount)
              == Drain(old(Store(pile, totalAmount)), order, amount, timeskipFeed && !cfg.autoFeed).0
      ensures nutritionInfo == old(nutritionInfo) && alreadyFed == old(alreadyFed) && neededPrey == old(neededPrey)
    {
      if amount == 0.0 {
        return;
      }
      var _ := DrawInOrder(order, amount, cfg);
    }

    /** The loop `remove_freshkill` and `__feed_individual` share: each
        sub-pile of `order` in turn is asked for what the previous ones left
        missing. */
    method DrawInOrder(order: seq<Bucket>, amount: real, cfg: Config) returns (missing: real)
      requires Valid() && amount >= 0.0
      modifies this
      ensures Valid() && Context() == old(Context())
      ensures (Store(pile, totalAmount), missing)
              == Drain(old(Store(pile, totalAmount)), order, amount, timeskipFeed && !cfg.autoFeed)
      ensures nutritionInfo == old(nutritionInfo) && alreadyFed == old(alreadyFed) && neededPrey == old(neededPrey)
    {
      var s;
      s, missing := DrainFrom(Store(pile, totalAmount), order, amount, timeskipFeed && !cfg.autoFeed);
      pile := s.pile;
      totalAmount := s.total;
    }

    /** The loop of `DrawInOrder` on the pile dictionary and its total. */
    static method DrainFrom(s: Store, order: seq<Bucket>, amount: real, suppressed: bool) returns (t: Store, missing: real)
      requires StoreOk(s) && amount >= 0.0
      ensures (t, missing) == Drain(s, order, amount, suppressed)
    {
      t := s;
      missing := amount;
      for i := 0 to |order|
        invariant StoreOk(t) && missing >= 0.0
        invariant Drain(t, order[i..], missing, suppressed) == Drain(s, order, amount, suppressed)
      {
        assert order[i..][1..] == order[i + 1..];
        t, missing := TakeFrom(t, order[i], missing, suppressed);
      }
      assert order[|order|..] == [];
    }

    /** `update_total_amount`: the total recomputed from the sub-piles. */
    method UpdateTotalAmount()
      requires Complete(pile) && KeyOrder(keys) && RecordsOk(nutritionInfo) && forall b :: pile[b] >= 0.0
      modifies this
      ensures Valid() && Context() == old(Context())
      ensures pile == old(pile) && totalAmount == PileSum(pile)
      ensures nutritionInfo == old(nutritionInfo) && alreadyFed == old(alreadyFed) && neededPrey == old(neededPrey)
    {
      totalAmount := PileSum(pile);
    }
 

    /** `_update_needed_food(cats)`: the prey the Clan needs, with the queen
        dictionary of `living_cats`. */
    method UpdateNeededFood(cats: seq<Cat>, all: seq<Cat>, cfg: Config)
      requires Valid() && ConfigOk(cfg) && RanksKnown(cats, cfg) && RanksKnown(livingCats.items, cfg)
      modifies this
      ensures Valid() && Context() == old(Context())
      ensures neededPrey == NeededFood(cats, livingCats.items, all, cfg)
      ensures pile == old(pile) && totalAmount == old(totalAmount)
      ensures nutritionInfo == old(nutritionInfo) && alreadyFed == old(alreadyFed)
    {
      neededPrey := NeedOf(cats, livingCats.items, all, cfg);
    }

    /** The sum `_update_needed_food` computes: the requirement of every cat
        of `cats` (plus the condition increase for the ill and injured in a
        cruel season), the queen surcharge for every nursing queen and every
        pregnant cat, and the requirement of the kits without an alive
        parent. */
    static method NeedOf(cats: seq<Cat>, living: seq<Cat>, all: seq<Cat>, cfg: Config) returns (needed: real)
      requires ConfigOk(cfg) && RanksKnown(cats, cfg) && RanksKnown(living, cfg)
      ensures needed == NeededFood(cats, living, all, cfg)
    {
      var livingKits, queenCount := QueensToFeed(cats, living, all);
      OrphansKnown(all, living, cfg);
      var kitsNeed := RankNeed(livingKits, cfg, false);
      assert kitsNeed == OrphanNeed(all, living, cfg);
      needed := RankNeed(cats, cfg, true);
      if cfg.cruelSeason {
        needed := needed + Times(SickCount(cats), cfg.conditionIncrease);
      }
      needed := needed + Times(queenCount, cfg.requirement[QueenPregnant] - cfg.requirement[RankStatus(Warrior)]);
      needed := needed + kitsNeed;
      assert needed == NeedTotal(cats, queenCount, kitsNeed, cfg);
      NeededFromParts(cats, living, all, cfg, queenCount, kitsNeed);
    }

    /** The first part of `_update_needed_food`: the kits without an alive
        parent, and the number of nursing queens plus pregnant cats that get
        the queen's surcharge. */
    static method QueensToFeed(cats: seq<Cat>, living: seq<Cat>, all: seq<Cat>) returns (livingKits: seq<Cat>, queenCount: nat)
      ensures livingKits == Orphans(all, Babies(living))
      ensures var d := Nurseries(all, Babies(living));
              queenCount == NursingQueenCount(d, d.order, all) + |PregnantCats(cats, d, true)|
    {
      var queenDict;
      queenDict, livingKits := GetAliveClanQueens(all, living);
      var relevantQueens := CountNursingQueens(queenDict, all);
      var pregnantCats := PregnantCats(cats, queenDict, true);
      queenCount := relevantQueens + |pregnantCats|;
    }

    /** The loop of `_update_needed_food` over the queen dictionary: a queen
        is counted when it has a kit younger than three moons, unless it is
        registered and no longer alive in the Clan. */
    static method CountNursingQueens(queenDict: QueenDict, all: seq<Cat>) returns (relevantQueens: nat)
      requires queenDict.Wf()
      ensures relevantQueens == NursingQueenCount(queenDict, queenDict.order, all)
    {
      OrderKeyed(queenDict);
      relevantQueens := 0;
      for i := 0 to |queenDict.order|
        invariant relevantQueens == NursingQueenCount(queenDict, queenDict.order[..i], all)
      {
        var q := queenDict.order[i];
        PrefixStep(queenDict.order, i);
        var queen := Fetch(all, q);
        if !(queen.Some? && !queen.value.aliveInClan) {
          var youngKits := YoungKits(queenDict.kits[q]);
          if |youngKits| > 0 {
            relevantQueens := relevantQueens + 1;
          }
        }
      }
      assert queenDict.order[..|queenDict.order|] == queenDict.order;
    }

    /** `amount_food_needed`: what the cats alive in the Clan need. */
    method AmountFoodNeeded(all: seq<Cat>, cfg: Config) returns (needed: real)
      requires Valid() && ConfigOk(cfg) && RanksKnown(AliveCats(all), cfg) && RanksKnown(livingCats.items, cfg)
      modifies this
      ensures Valid() && Context() == old(Context())
      ensures needed == neededPrey == NeededFood(AliveCats(all), livingCats.items, all, cfg)
      ensures Abs() == old(Abs()).(neededPrey := needed)
    {
      UpdateNeededFood(AliveCats(all), all, cfg);
      needed := neededPrey;
    }

    /** `clan_has_enough_food`: the pile holds at least what the Clan needs. */
    method ClanHasEnoughFood(all: seq<Cat>, cfg: Config) returns (enough: bool)
      requires Valid() && ConfigOk(cfg) && RanksKnown(AliveCats(all), cfg) && RanksKnown(livingCats.items, cfg)
      modifies this
      ensures Valid() && Context() == old(Context())
      ensures enough <==> NeededFood(AliveCats(all), livingCats.items, all, cfg) <= totalAmount
      ensures Abs() == old(Abs()).(neededPrey := NeededFood(AliveCats(all), livingCats.items, all, cfg))
    {
      var needed := AmountFoodNeeded(all, cfg);
      enough := needed <= totalAmount;
    }

    /** `_find_kitten_and_queen(cats)`: the kits fed by their queen (every
        alive baby of `cats` younger than three moons with an alive parent)
        and the cats fed as queens: the queens nursing such a kit, then the
        pregnant cats of `cats` that nurse none. */
    static method FindKittenAndQueen(cats: seq<Cat>, all: seq<Cat>) returns (kits: seq<Cat>, relevantQueens: seq<Cat>)
      ensures (kits, relevantQueens) == KittensAndQueens(cats, all)
      ensures forall k :: k in kits <==> k in cats && k.aliveInClan && k.rank.IsBaby() && k.moons < 3 && !Orphan(all, k)
      ensures forall q :: q in relevantQueens ==> q in all || (q in cats && q.pregnant)
    {
      var queenDict, _ := GetAliveClanQueens(all, cats);
      QueensRegistered(all, Babies(cats));
      kits := [];
      relevantQueens := [];
      for i := 0 to |queenDict.order|
        invariant kits == NursedKits(queenDict, queenDict.order[..i])
        invariant relevantQueens == NursingQueens(queenDict, queenDict.order[..i], all)
      {
        var q := queenDict.order[i];
        PrefixStep(queenDict.order, i);
        var queen := Fetch(all, q);
        var youngKits := YoungKits(queenDict.kits[q]);
        if |youngKits| > 0 {
          kits := kits + youngKits;
          relevantQueens := relevantQueens + [queen.value];
        }
      }
      PrefixAll(queenDict.order);
      relevantQueens := relevantQueens + PregnantCats(cats, queenDict, false);
      forall k ensures k in kits <==> k in cats && k.aliveInClan && k.rank.IsBaby() && k.moons < 3 && !Orphan(all, k) {
        FedKitsAreNursedYoung(cats, all, k);
      }
    }
 

    /** The environment a pass runs in: the settings, the manual flag, the
        tick-without-auto-feed case, the kits fed by their queen, the cats
        fed as queens, and what `amount_food_needed` returns. */
    function PileEnv(all: seq<Cat>, cfg: Config): Env
      reads this, livingCats
      requires ConfigOk(cfg) && RanksKnown(AliveCats(all), cfg) && RanksKnown(livingCats.items, cfg)
    {
      Env(cfg, isManualFeeding, timeskipFeed && !cfg.autoFeed, IdSet(fedKits), IdSet(queens),
          NeededFood(AliveCats(all), livingCats.items, all, cfg))
    }

    /** What the feeding methods need: a valid pile, usable tables, and the
        ranks of the living cats known. */
    ghost predicate FeedingOk(all: seq<Cat>, cfg: Config)
      reads this, livingCats
    {
      Valid() && ConfigOk(cfg) && RanksKnown(AliveCats(all), cfg) && RanksKnown(livingCats.items, cfg)
    }

    /** `__feed_individual`: the allowance drawn soonest to expire first, the
        cat marked as fed, and its record updated by the score rules. */
    method FeedIndividual(cat: Cat, amountAllowed: real, preyRequired: real, cfg: Config)
      requires Valid() && cat.id in nutritionInfo && amountAllowed >= 0.0
      modifies this
      ensures Valid() && Context() == old(Context())
      ensures var eaten := Eat(old(Store(pile, totalAmount)), 0, amountAllowed, timeskipFeed && !cfg.autoFeed);
              Store(pile, totalAmount) == eaten.0
              && nutritionInfo == old(nutritionInfo)[cat.id := ScoreAfter(old(nutritionInfo)[cat.id], amountAllowed, preyRequired, eaten.1, isManualFeeding)]
      ensures alreadyFed == old(alreadyFed) + [cat.id] && neededPrey == old(neededPrey)
    {
      var amountStillNeeded := EatSoonestFirst(amountAllowed, cfg);
      // manual feeding only adds; otherwise the unmet part and the ration
      // deficit are subtracted, or a hungry cat gains what it ate beyond its
      // requirement
      var n := ScoreAfter(nutritionInfo[cat.id], amountAllowed, preyRequired, amountStillNeeded, isManualFeeding);
      MarkFed(cat.id, n);
    }

    /** A cat recorded as fed, with its new record. */
    method MarkFed(id: CatId, n: Nutrition)
      requires Valid() && id in nutritionInfo && NutritionOk(n)
      modifies this
      ensures Valid() && Context() == old(Context())
      ensures Abs() == old(Abs()).(nutrition := old(nutritionInfo)[id := n], alreadyFed := old(alreadyFed) + [id])
    {
      alreadyFed := alreadyFed + [id];
      RecordUpdated(nutritionInfo, id, n);
      nutritionInfo := nutritionInfo[id := n];
    }

    /** The draw of `__feed_individual`: takes from the sub-piles soonest to
        expire first and returns what is still missing. */
    method EatSoonestFirst(amount: real, cfg: Config) returns (missing: real)
      requires Valid() && amount >= 0.0
      modifies this
      ensures Valid() && Context() == old(Context())
      ensures (Store(pile, totalAmount), missing) == Eat(old(Store(pile, totalAmount)), 0, amount, timeskipFeed && !cfg.autoFeed)
      ensures nutritionInfo == old(nutritionInfo) && alreadyFed == old(alreadyFed) && neededPrey == old(neededPrey)
    {
      missing := amount;
      for i := 0 to 4
        invariant Valid() && Context() == old(Context()) && missing >= 0.0
        invariant Eat(Store(pile, totalAmount), i, missing, timeskipFeed && !cfg.autoFeed)
                  == Eat(old(Store(pile, totalAmount)), 0, amount, timeskipFeed && !cfg.autoFeed)
        invariant nutritionInfo == old(nutritionInfo) && alreadyFed == old(alreadyFed) && neededPrey == old(neededPrey)
      {
        missing := TakeFromPile(Soonest(i), missing, cfg);
      }
    }

    /** `_feed_group`: each cat not yet fed and not a kit fed by its queen
        gets its requirement (as a queen when it is one), halved under
        rationing except for newborns, or with the surplus bonus when it is
        hungry; then it is fed. */
    method FeedGroup(group: seq<Cat>, all: seq<Cat>, cfg: Config)
      requires FeedingOk(all, cfg) && AllReady(Abs(), group, PileEnv(all, cfg))
      modifies this
      ensures FeedingOk(all, cfg) && Context() == old(Context())
      ensures Abs() == FeedGroupSpec(old(Abs()), group, PileEnv(all, cfg))
    {
      ghost var env := PileEnv(all, cfg);
      if |group| == 0 {
        return;
      }
      for i := 0 to |group|
        invariant FeedingOk(all, cfg) && Context() == old(Context()) && PileEnv(all, cfg) == env
        invariant Abs() == FeedGroupSpec(old(Abs()), group[..i], env)
      {
        GroupStep(old(Abs()), group, i, env);
        ServeCat(group[i], all, cfg);
      }
      assert group[..|group|] == group;
    }

    /** The body of the loop of `_feed_group` for one cat. */
    method ServeCat(cat: Cat, all: seq<Cat>, cfg: Config)
      requires FeedingOk(all, cfg) && Ready(Abs(), cat, PileEnv(all, cfg))
      modifies this
      ensures FeedingOk(all, cfg) && Context() == old(Context())
      ensures Abs() == FeedOne(old(Abs()), cat, old(PileEnv(all, cfg)))
    {
      ghost var env := PileEnv(all, cfg);
      if cat.id in alreadyFed {
        return;
      }
      var rank := RankStatus(cat.rank);
      if cat.rank.IsBaby() && cat.id in IdSet(fedKits) {
        return;
      }
      if cat.id in IdSet(queens) {
        rank := QueenPregnant;
      }
      ServeAllowance(cat, rank, all, cfg);
    }

    /** The part of `_feed_group` for a cat that is not skipped: the Clan's
        need recomputed, the allowance worked out and eaten. */
    method ServeAllowance(cat: Cat, rank: Status, all: seq<Cat>, cfg: Config)
      requires FeedingOk(all, cfg) && Ready(Abs(), cat, PileEnv(all, cfg)) && !Skipped(Abs(), cat, PileEnv(all, cfg))
      requires rank == FedAs(cat, PileEnv(all, cfg))
      modifies this
      ensures FeedingOk(all, cfg) && Context() == old(Context())
      ensures Abs() == FeedOne(old(Abs()), cat, old(PileEnv(all, cfg)))
    {
      ghost var env := PileEnv(all, cfg);
      var preyRequired := cfg.requirement[rank];
      ghost var before := Abs();
      var totalRequired := AmountFoodNeeded(all, cfg);
      // halved under rationing (not for newborns), else the surplus bonus
      var amountAllowed := Allowance(preyRequired, rank, cfg.rationPrey, totalAmount, totalRequired,
                                     nutritionInfo[cat.id].Percentage() < 100.0);
      FeedIndividual(cat, amountAllowed, preyRequired, cfg);
      FeedOneServed(before, cat, env);
    }

    /** The cats of `cats` have a rank with a requirement and a record, and
        so do the cats fed as queens. */
    ghost predicate Listed(cats: seq<Cat>, cfg: Config)
      reads this
    {
      Tabled(cats, cfg) && (forall c :: c in cats ==> c.id in nutritionInfo)
      && (forall q :: q in queens ==> q.id in nutritionInfo)
    }

    /** `_feed_by_rank`: for each status of `FEEDING_ORDER` (reversed for high
        rank first) its group, youngest first. */
    method FeedByRank(cats: seq<Cat>, highFirst: bool, all: seq<Cat>, cfg: Config)
      requires FeedingOk(all, cfg) && Listed(cats, cfg)
      modifies this
      ensures FeedingOk(all, cfg) && Context() == old(Context()) && Listed(cats, cfg)
      ensures Abs() == FeedGroupSpec(old(Abs()), RankOrder(cats, if highFirst then Reverse(cfg.feedingOrder) else cfg.feedingOrder,
                                                           queens, PileEnv(all, cfg)), PileEnv(all, cfg))
    {
      ghost var env := PileEnv(all, cfg);
      ghost var s0 := Abs();
      ListedReady(s0, cats, queens, env);
      var feedOrder := cfg.feedingOrder;
      if highFirst {
        feedOrder := Reverse(feedOrder);
      }
      for i := 0 to |feedOrder|
        invariant Context() == old(Context()) && RankPassed(s0, cats, feedOrder, i, all, cfg, env)
      {
        RankPass(s0, cats, feedOrder, i, all, cfg, env);
      }
      PrefixAll(feedOrder);
    }

    /** The loop state of `_feed_by_rank` after the first `i` statuses of
        `order`: the groups of those statuses fed from `s0`. */
    ghost predicate RankPassed(s0: PassState, cats: seq<Cat>, order: seq<Status>, i: nat, all: seq<Cat>, cfg: Config, env: Env)
      reads this, livingCats
    {
      i <= |order| && FeedingOk(all, cfg) && PileEnv(all, cfg) == env && Listed(cats, cfg)
      && StateOk(s0) && AllReady(s0, cats, env) && AllReady(s0, queens, env)
      && Abs() == FeedGroupSpec(s0, RankOrder(cats, order[..i], queens, env), env)
    }

    /** One status of `_feed_by_rank`. */
    method RankPass(ghost s0: PassState, cats: seq<Cat>, order: seq<Status>, i: nat, all: seq<Cat>, cfg: Config, ghost env: Env)
      requires i < |order| && RankPassed(s0, cats, order, i, all, cfg, env)
      modifies this
      ensures Context() == old(Context()) && RankPassed(s0, cats, order, i + 1, all, cfg, env)
    {
      ghost var before := RankOrder(cats, order[..i], queens, env);
      ghost var g := SortBy(RankGroup(cats, order[i], queens, env), Moons, false);
      RankStep(s0, cats, queens, order, i, env);
      ghost var s1 := Abs();
      FeedStatus(cats, order[i], all, cfg);
      assert Abs() == FeedGroupSpec(s1, g, env) && s1 == FeedGroupSpec(s0, before, env);
      assert Abs().nutrition.Keys == s1.nutrition.Keys;
    }

    /** The body of the loop of `_feed_by_rank` for one status: its group,
        youngest first, unless the group is empty. */
    method FeedStatus(cats: seq<Cat>, feedingStatus: Status, all: seq<Cat>, cfg: Config)
      requires FeedingOk(all, cfg)
      requires AllReady(Abs(), SortBy(RankGroup(cats, feedingStatus, queens, PileEnv(all, cfg)), Moons, false), PileEnv(all, cfg))
      modifies this
      ensures FeedingOk(all, cfg) && Context() == old(Context())
      ensures Abs() == FeedGroupSpec(old(Abs()), SortBy(RankGroup(cats, feedingStatus, queens, PileEnv(all, cfg)), Moons, false),
                                     PileEnv(all, cfg))
    {
      var relevantGroup;
      if feedingStatus == QueenPregnant {
        relevantGroup := queens;
      } else if feedingStatus.rank.IsBaby() {
        relevantGroup := OfRank(cats, feedingStatus.rank, IdSet(fedKits));
      } else {
        relevantGroup := OfRank(cats, feedingStatus.rank, IdSet(queens));
      }
      if |relevantGroup| == 0 {
        return;
      }
      var sortedGroup := SortBy(relevantGroup, Moons, false);
      FeedGroup(sortedGroup, all, cfg);
    }

    /** `_feed_by_age`: youngest first, or oldest first. */
    method FeedByAge(cats: seq<Cat>, oldestFirst: bool, all: seq<Cat>, cfg: Config)
      requires FeedingOk(all, cfg) && Listed(cats, cfg)
      modifies this
      ensures FeedingOk(all, cfg) && Context() == old(Context()) && Listed(cats, cfg)
      ensures Abs() == FeedGroupSpec(old(Abs()), SortBy(cats, Moons, oldestFirst), PileEnv(all, cfg))
    {
      ListedReady(Abs(), cats, queens, PileEnv(all, cfg));
      var sortedCats := SortBy(cats, Moons, oldestFirst);
      FeedGroup(sortedCats, all, cfg);
    }

    /** `_feed_by_experience_first`: most experienced first. */
    method FeedByExperienceFirst(cats: seq<Cat>, all: seq<Cat>, cfg: Config)
      requires FeedingOk(all, cfg) && Listed(cats, cfg)
      modifies this
      ensures FeedingOk(all, cfg) && Context() == old(Context()) && Listed(cats, cfg)
      ensures Abs() == FeedGroupSpec(old(Abs()), SortBy(cats, Experience, true), PileEnv(all, cfg))
    {
      ListedReady(Abs(), cats, queens, PileEnv(all, cfg));
      var sortedCats := SortBy(cats, Experience, true);
      FeedGroup(sortedCats, all, cfg);
    }

    /** `_feed_sick_injured`: the ill or injured cats, in list order. */
    method FeedSickInjured(cats: seq<Cat>, all: seq<Cat>, cfg: Config)
      requires FeedingOk(all, cfg) && Listed(cats, cfg)
      modifies this
      ensures FeedingOk(all, cfg) && Context() == old(Context()) && Listed(cats, cfg)
      ensures Abs() == FeedGroupSpec(old(Abs()), SickCats(cats), PileEnv(all, cfg))
    {
      ListedReady(Abs(), cats, queens, PileEnv(all, cfg));
      var sickCats := SickCats(cats);
      FeedGroup(sickCats, all, cfg);
    }

    /** `_feed_by_hungry_first`, sorting the hungry cats by their percentage
        (the source's key is the record itself, see `HungryOrderAsWritten`):
        the hungry cats lowest first, then the rank tactic over the others,
        or the rank tactic alone when nobody is hungry. */
    method FeedByHungryFirst(cats: seq<Cat>, all: seq<Cat>, cfg: Config)
      requires FeedingOk(all, cfg) && Listed(cats, cfg)
      modifies this
      ensures FeedingOk(all, cfg) && Context() == old(Context()) && Listed(cats, cfg)
      ensures Abs() == FeedGroupSpec(old(Abs()), HungryOrder(cats, old(nutritionInfo), cfg.feedingOrder, queens, PileEnv(all, cfg)),
                                     PileEnv(all, cfg))
    {
      if |cats| == 0 {
        return;
      }
      ghost var env := PileEnv(all, cfg);
      ghost var s0 := Abs();
      ListedReady(s0, cats, queens, env);
      var hungryCats, satisfiedCats := SplitByHunger(cats, nutritionInfo);
      if |hungryCats| == 0 {
        FeedByRank(cats, false, all, cfg);
        return;
      }
      FeedHungryThenRest(hungryCats, satisfiedCats, all, cfg);
    }

    /** The second half of `_feed_by_hungry_first` when some cat is hungry:
        the hungry cats lowest percentage first, then the rank tactic over
        the others. */
    method FeedHungryThenRest(hungryCats: seq<Cat>, satisfiedCats: seq<Cat>, all: seq<Cat>, cfg: Config)
      requires FeedingOk(all, cfg) && Listed(hungryCats, cfg) && Listed(satisfiedCats, cfg)
      modifies this
      ensures FeedingOk(all, cfg) && Context() == old(Context())
      ensures Listed(hungryCats, cfg) && Listed(satisfiedCats, cfg)
      ensures Abs() == FeedGroupSpec(old(Abs()), SortBy(hungryCats, PercentKey(old(nutritionInfo)), false)
                                                 + RankOrder(satisfiedCats, cfg.feedingOrder, queens, PileEnv(all, cfg)),
                                     PileEnv(all, cfg))
    {
      ghost var env := PileEnv(all, cfg);
      ghost var s0 := Abs();
      ListedReady(s0, hungryCats, queens, env);
      var hungryCatsSorted := SortBy(hungryCats, PercentKey(nutritionInfo), false);
      ghost var rest := RankOrder(satisfiedCats, cfg.feedingOrder, queens, env);
      FeedGroupAppend(s0, hungryCatsSorted, rest, env);
      FeedGroup(hungryCatsSorted, all, cfg);
      FeedByRank(satisfiedCats, false, all, cfg);
    }

    /** The loop of `_feed_by_hungry_first` that splits the cats into those
        below 100% and the others, keeping their order. */
    static method SplitByHunger(cats: seq<Cat>, info: map<CatId, Nutrition>)
      returns (hungryCats: seq<Cat>, satisfiedCats: seq<Cat>)
      requires forall c :: c in cats ==> c.id in info && NutritionOk(info[c.id])
      ensures hungryCats == HungryCats(cats, info, true)
      ensures satisfiedCats == HungryCats(cats, info, false)
    {
      hungryCats := [];
      satisfiedCats := [];
      for i := 0 to |cats|
        invariant hungryCats == HungryCats(cats[..i], info, true)
        invariant satisfiedCats == HungryCats(cats[..i], info, false)
      {
        assert cats[..i + 1][..i] == cats[..i];
        var cat := cats[i];
        if info[cat.id].Percentage() < 100.0 {
          hungryCats := hungryCats + [cat];
        } else {
          satisfiedCats := satisfiedCats + [cat];
        }
      }
      assert cats[..|cats|] == cats;
    }

    /** `_feed_hunters`: search ranks 1 to 3; a cat whose primary (or else
        secondary) skill is a hunter skill of that tier goes to the front of
        the hunters and is removed from the caller's list; then the hunters
        are fed. */
    method FeedHunters(cats: CatList, all: seq<Cat>, cfg: Config)
      requires FeedingOk(all, cfg) && Listed(cats.items, cfg)
      modifies this, cats
      ensures cats.items == HuntersFirst(old(cats.items)).1
      ensures FeedingOk(all, cfg) && Context() == old(Context()) && Listed(cats.items, cfg)
      ensures Abs() == FeedGroupSpec(old(Abs()), HuntersFirst(old(cats.items)).0, PileEnv(all, cfg))
    {
      ghost var original := cats.items;
      ListedReady(Abs(), original, queens, PileEnv(all, cfg));
      var bestHunter := PickHunters(cats);
      FeedGroup(bestHunter, all, cfg);
    }

    /** The search loops of `_feed_hunters`. */
    static method PickHunters(cats: CatList) returns (bestHunter: seq<Cat>)
      modifies cats
      ensures (bestHunter, cats.items) == HuntersFirst(old(cats.items))
    {
      ghost var original := cats.items;
      bestHunter := [];
      for searchRank := 1 to 4
        invariant (bestHunter, cats.items) == HuntRounds(original, searchRank - 1)
      {
        bestHunter := PickAtRank(cats, searchRank, bestHunter);
      }
      HuntRoundsAll(original);
    }

    /** One search rank of `_feed_hunters`: each cat of (a copy of) the list
        with a hunter skill of that tier goes to the front of the hunters and
        out of the list. */
    static method PickAtRank(cats: CatList, searchRank: int, found: seq<Cat>) returns (bestHunter: seq<Cat>)
      modifies cats
      ensures bestHunter == Reverse(Tiered(old(cats.items), searchRank)) + found
      ensures cats.items == Untiered(old(cats.items), searchRank)
    {
      bestHunter := found;
      var snapshot := cats.items;
      for j := 0 to |snapshot|
        invariant bestHunter == Reverse(Tiered(snapshot[..j], searchRank)) + found
        invariant cats.items == Untiered(snapshot[..j], searchRank) + snapshot[j..]
      {
        bestHunter := TryHunter(cats, snapshot, j, searchRank, found, bestHunter);
      }
      PrefixAll(snapshot);
    }

    /** The body of the inner loop of `_feed_hunters` for the `j`-th cat of
        the copy: a cat without skills is passed over; one whose primary, or
        else secondary, skill is a hunter skill of the searched tier is put
        in front of the hunters and removed from the list. */
    static method TryHunter(cats: CatList, snapshot: seq<Cat>, j: nat, searchRank: int, found: seq<Cat>, hunters: seq<Cat>)
      returns (bestHunter: seq<Cat>)
      requires j < |snapshot|
      requires hunters == Reverse(Tiered(snapshot[..j], searchRank)) + found
      requires cats.items == Untiered(snapshot[..j], searchRank) + snapshot[j..]
      modifies cats
      ensures bestHunter == Reverse(Tiered(snapshot[..j + 1], searchRank)) + found
      ensures cats.items == Untiered(snapshot[..j + 1], searchRank) + snapshot[j + 1..]
    {
      bestHunter := hunters;
      var cat := snapshot[j];
      SliceAt(snapshot, j);
      if cat.skills.None? {
        HuntPassed(snapshot[..j], cat, snapshot[j + 1..], searchRank);
        return;
      }
      var skills := cat.skills.value;
      if skills.primary.Some? && skills.primary.value.path == Hunter && skills.primary.value.tier == searchRank {
        HuntPicked(snapshot[..j], cat, snapshot[j + 1..], searchRank, found);
        bestHunter := [cat] + bestHunter;
        cats.items := Remove(cats.items, cat);
      } else if skills.secondary.Some? && skills.secondary.value.path == Hunter && skills.secondary.value.tier == searchRank {
        HuntPicked(snapshot[..j], cat, snapshot[j + 1..], searchRank, found);
        bestHunter := [cat] + bestHunter;
        cats.items := Remove(cats.items, cat);
      } else {
        HuntPassed(snapshot[..j], cat, snapshot[j + 1..], searchRank);
      }
    }

    /** `update_nutrition(cats)`: drops the records of cats no longer alive in
        the Clan, then brings the maximum of every listed cat with a
        requirement up to date (score rescaled) or adds a record for it. The
        queens are those of `living_cats`. */
    method UpdateNutrition(cats: seq<Cat>, all: seq<Cat>, cfg: Config)
      requires Valid() && ConfigOk(cfg) && forall id :: id in nutritionInfo ==> Fetch(all, id).Some?
      modifies this
      ensures Valid() && Context() == old(Context())
      ensures nutritionInfo == UpdatedNutrition(old(nutritionInfo), cats, all, livingCats.items, cfg)
      ensures Store(pile, totalAmount) == old(Store(pile, totalAmount))
      ensures alreadyFed == old(alreadyFed) && neededPrey == old(neededPrey)
    {
      var queenDict, _ := GetAliveClanQueens(all, livingCats.items);
      ghost var info := nutritionInfo;
      PruneRecords(all);
      // the maximum of each listed cat
      for i := 0 to |cats|
        invariant Valid() && Context() == old(Context())
        invariant nutritionInfo == UpdateRecords(Pruned(info, all), cats[..i], queenDict, cfg)
        invariant Store(pile, totalAmount) == old(Store(pile, totalAmount))
        invariant alreadyFed == old(alreadyFed) && neededPrey == old(neededPrey)
      {
        assert cats[..i + 1][..i] == cats[..i];
        RefreshRecord(cats[i], queenDict, all, cfg);
      }
      assert cats[..|cats|] == cats;
    }

    /** The first half of `update_nutrition`: the records of cats that are
        not alive in the Clan are removed. */
    method PruneRecords(all: seq<Cat>)
      requires Valid() && forall id :: id in nutritionInfo ==> Fetch(all, id).Some?
      modifies this
      ensures Valid() && Context() == old(Context())
      ensures nutritionInfo == Pruned(old(nutritionInfo), all)
      ensures Store(pile, totalAmount) == old(Store(pile, totalAmount))
      ensures alreadyFed == old(alreadyFed) && neededPrey == old(neededPrey)
    {
      var info := nutritionInfo;
      var remove: set<CatId> := {};
      var ids := info.Keys;
      while ids != {}
        invariant ids <= info.Keys
        invariant remove == set id | id in info.Keys - ids && !Fetch(all, id).value.aliveInClan
        decreases ids
      {
        var catId :| catId in ids;
        if !Fetch(all, catId).value.aliveInClan {
          remove := remove + {catId};
        }
        ids := ids - {catId};
      }
      assert info - remove == Pruned(info, all);
      SetRecords(info - remove);
    }

    /** The records replaced, every other field kept. */
    method SetRecords(info: map<CatId, Nutrition>)
      requires Valid() && RecordsOk(info)
      modifies this
      ensures Valid() && Context() == old(Context()) && nutritionInfo == info
      ensures Store(pile, totalAmount) == old(Store(pile, totalAmount))
      ensures alreadyFed == old(alreadyFed) && neededPrey == old(neededPrey)
    {
      nutritionInfo := info;
    }

    /** One cat of the second half of `update_nutrition`: a cat whose rank
        has no requirement is skipped, a known cat's maximum is brought up to
        date (its score rescaled), and an unknown cat gets a new record. */
    method RefreshRecord(cat: Cat, queenDict: QueenDict, all: seq<Cat>, cfg: Config)
      requires Valid() && ConfigOk(cfg) && queenDict == Nurseries(all, Babies(livingCats.items))
      modifies this
      ensures Valid() && Context() == old(Context())
      ensures nutritionInfo == RecordStep(old(nutritionInfo), cat, queenDict, cfg)
      ensures Store(pile, totalAmount) == old(Store(pile, totalAmount))
      ensures alreadyFed == old(alreadyFed) && neededPrey == old(neededPrey)
    {
      if RankStatus(cat.rank) !in cfg.requirement {
        return;
      }
      ghost var info := nutritionInfo;
      if cat.id in nutritionInfo {
        var requiredMax := RequiredMax(cat, queenDict, cfg);
        RescaleRecord(cat.id, requiredMax);
        RecordStepKnown(info, cat, queenDict, cfg);
      } else {
        AddCatToNutrition(cat, all, cfg);
        RecordStepNew(info, cat, queenDict, cfg);
      }
    }

    /** The maximum `update_nutrition` gives a known cat: the requirement of
        its status times 2 for newborns, kittens and elders past 114 moons,
        else 3. */
    static method RequiredMax(cat: Cat, queenDict: QueenDict, cfg: Config) returns (m: real)
      requires ConfigOk(cfg) && RankStatus(cat.rank) in cfg.requirement
      ensures m == cfg.requirement[PreyStatus(cat, queenDict)] * UpdateFactor(cat) && m > 0.0
    {
      var factor := 3.0;
      var status := RankStatus(cat.rank);
      if cat.rank.IsBaby() || (cat.moons > 114 && cat.rank == Elder) {
        factor := 2.0;
      }
      if cat.id in queenDict.kits || cat.pregnant {
        status := QueenPregnant;
      }
      PositiveProduct(cfg.requirement[status], factor);
      m := cfg.requirement[status] * factor;
    }

    /** A known cat's record given a new maximum, its score scaled in
        proportion when the maximum changes. */
    method RescaleRecord(id: CatId, requiredMax: real)
      requires Valid() && id in nutritionInfo && requiredMax > 0.0
      modifies this
      ensures Valid() && Context() == old(Context())
      ensures nutritionInfo == old(nutritionInfo)[id := Rescaled(old(nutritionInfo)[id], requiredMax)]
      ensures Store(pile, totalAmount) == old(Store(pile, totalAmount))
      ensures alreadyFed == old(alreadyFed) && neededPrey == old(neededPrey)
    {
      var n := nutritionInfo[id];
      if n.maxScore != requiredMax {
        var rescaled := RescaleTo(n, requiredMax);
        RecordUpdated(nutritionInfo, id, rescaled);
        SetRecords(nutritionInfo[id := rescaled]);
      } else {
        assert nutritionInfo[id := n] == nutritionInfo;
      }
    }

    /** A record given a different maximum, its score kept in proportion. */
    static method RescaleTo(n: Nutrition, requiredMax: real) returns (rescaled: Nutrition)
      requires NutritionOk(n) && requiredMax > 0.0 && n.maxScore != requiredMax
      ensures rescaled == Rescaled(n, requiredMax)
    {
      ScaledInRange(n, requiredMax);
      var previousMax := n.maxScore;
      rescaled := SetScore(n.(maxScore := requiredMax), n.currentScore / previousMax * requiredMax);
    }

    /** `add_cat_to_nutrition`: a full record with the maximum
        `requirement × factor` (2 for newborns, kittens and elders, else 3),
        raised by the sickness surcharge for a cat that cannot work in cruel
        season. */
    method AddCatToNutrition(cat: Cat, all: seq<Cat>, cfg: Config)
      requires Valid() && ConfigOk(cfg) && RankStatus(cat.rank) in cfg.requirement
      modifies this
      ensures Valid() && Context() == old(Context())
      ensures nutritionInfo == old(nutritionInfo)[cat.id := NewRecord(cat, Nurseries(all, Babies(livingCats.items)), cfg)]
      ensures Store(pile, totalAmount) == old(Store(pile, totalAmount))
      ensures alreadyFed == old(alreadyFed) && neededPrey == old(neededPrey)
    {
      var queenDict, _ := GetAliveClanQueens(all, livingCats.items);
      var nutrition := BuildRecord(cat, queenDict, cfg);
      RecordUpdatedOrAdded(nutritionInfo, cat.id, nutrition);
      SetRecords(nutritionInfo[cat.id := nutrition]);
    }

    /** The record `add_cat_to_nutrition` builds for a cat new to the
        records. */
    static method BuildRecord(cat: Cat, queenDict: QueenDict, cfg: Config) returns (nutrition: Nutrition)
      requires ConfigOk(cfg) && RankStatus(cat.rank) in cfg.requirement
      ensures nutrition == NewRecord(cat, queenDict, cfg)
    {
      nutrition := SetScore(Nutrition(1.0, 0.0), 0.0);
      var factor := 3.0;
      if cat.rank in {Newborn, Kitten, Elder} {
        factor := 2.0;
      }
      var preyStatus := RankStatus(cat.rank);
      if cat.id in queenDict.kits || cat.pregnant {
        preyStatus := QueenPregnant;
      }
      var maxScore := cfg.requirement[preyStatus] * factor;
      PositiveProduct(cfg.requirement[preyStatus], factor);
      nutrition := nutrition.(maxScore := maxScore);
      nutrition := SetScore(nutrition, maxScore);
      // a cat that cannot work needs more in cruel season
      if !cat.pregnant && cat.notWorking && cfg.cruelSeason {
        NonNegativeProduct(cfg.conditionIncrease, factor);
        nutrition := nutrition.(maxScore := nutrition.maxScore + cfg.conditionIncrease * factor);
        nutrition := SetScore(nutrition, nutrition.maxScore);
      }
    }

    /** The priority step of `feed_cats`: the ill and injured first, or the
        hunters first (taken out of the caller's list). */
    method FeedPriority(cats: CatList, all: seq<Cat>, cfg: Config)
      requires FeedingOk(all, cfg) && Listed(cats.items, cfg)
      modifies this, cats
      ensures cats.items == Priority(old(cats.items), cfg).1
      ensures FeedingOk(all, cfg) && Context() == old(Context()) && Listed(cats.items, cfg)
      ensures Abs() == FeedGroupSpec(old(Abs()), Priority(old(cats.items), cfg).0, PileEnv(all, cfg))
    {
      if cfg.sickInjuredFirst {
        FeedSickInjured(cats.items, all, cfg);
      } else if cfg.hunterFirst {
        FeedHunters(cats, all, cfg);
      }
    }

    /** The tactic step of `feed_cats`, chosen by the Clan settings. */
    method FeedTactic(cats: seq<Cat>, all: seq<Cat>, cfg: Config)
      requires FeedingOk(all, cfg) && Listed(cats, cfg)
      modifies this
      ensures FeedingOk(all, cfg) && Context() == old(Context())
      ensures Abs() == FeedGroupSpec(old(Abs()), TacticOrder(cats, old(nutritionInfo), queens, PileEnv(all, cfg)), PileEnv(all, cfg))
    {
      if cfg.youngestFirst {
        FeedByAge(cats, false, all, cfg);
      } else if cfg.oldestFirst {
        FeedByAge(cats, true, all, cfg);
      } else if cfg.hungriestFirst {
        FeedByHungryFirst(cats, all, cfg);
      } else if cfg.experienceFirst {
        FeedByExperienceFirst(cats, all, cfg);
      } else if cfg.highRank {
        FeedByRank(cats, true, all, cfg);
      } else {
        // low rank first is the default
        FeedByRank(cats, false, all, cfg);
      }
    }

    /** `feed_cats(cats, is_manual_feeding)`: records brought up to date, the
        kits fed by their queens and the queens found, the priority group
        and then the tactic's order fed; the flags are reset afterwards. */
    method FeedCats(cats: CatList, manual: bool, all: seq<Cat>, cfg: Config)
      requires Valid() && FeedPre(Abs(), cats.items, livingCats.items, all, cfg)
      modifies this, cats
      ensures Valid() && keys == old(keys) && timeskipFeed == old(timeskipFeed) && livingCats == old(livingCats)
      ensures !isManualFeeding && fedKits == [] && queens == []
      ensures (Abs(), cats.items) == FeedCatsSpec(old(Abs()), old(cats.items), old(livingCats.items), cats == livingCats,
                                                  all, cfg, manual, timeskipFeed)
    {
      ghost var s0, items, living, aliased := Abs(), cats.items, livingCats.items, cats == livingCats;
      PrepareFeeding(cats.items, manual, all, cfg);
      FeedPriorityThenTactic(cats, all, cfg);
      EndFeeding();
      FeedCatsSplit(s0, items, living, aliased, all, cfg, manual, timeskipFeed);
    }

    /** The end of `feed_cats`: the manual flag, the kits fed by their queens
        and the queens are reset. */
    method EndFeeding()
      requires Valid()
      modifies this
      ensures Valid() && !isManualFeeding && fedKits == [] && queens == []
      ensures Abs() == old(Abs()) && keys == old(keys) && timeskipFeed == old(timeskipFeed) && livingCats == old(livingCats)
    {
      isManualFeeding := false;
      fedKits := [];
      queens := [];
    }

    /** The start of `feed_cats`: the records brought up to date, the flag
        set, and the kits fed by their queens and the queens found. */
    method PrepareFeeding(cats: seq<Cat>, manual: bool, all: seq<Cat>, cfg: Config)
      requires Valid() && FeedPre(Abs(), cats, livingCats.items, all, cfg)
      modifies this
      ensures FeedingOk(all, cfg) && Listed(cats, cfg)
      ensures keys == old(keys) && timeskipFeed == old(timeskipFeed) && livingCats == old(livingCats)
      ensures isManualFeeding == manual && (fedKits, queens) == KittensAndQueens(cats, all)
      ensures Abs() == old(Abs()).(nutrition := UpdatedNutrition(old(nutritionInfo), cats, all, livingCats.items, cfg))
    {
      UpdateNutrition(cats, all, cfg);
      isManualFeeding := manual;
      fedKits, queens := FindKittenAndQueen(cats, all);
    }

    /** The feeding of `feed_cats` once the records, the kits and the queens
        are known: the priority group, then the tactic's order. */
    method FeedPriorityThenTactic(cats: CatList, all: seq<Cat>, cfg: Config)
      requires FeedingOk(all, cfg) && Listed(cats.items, cfg)
      requires (fedKits, queens) == KittensAndQueens(cats.items, all)
      modifies this, cats
      ensures FeedingOk(all, cfg) && Context() == old(Context())
      ensures cats.items == Priority(old(cats.items), cfg).1
      ensures Abs() == FeedOrdered(old(Abs()), old(cats.items), livingCats.items, all, cfg, isManualFeeding, timeskipFeed)
    {
      FeedPriority(cats, all, cfg);
      FeedTactic(cats.items, all, cfg);
    }

    /** The ageing loop of `time_skip`: walking the dictionary order, each
        sub-pile takes the amount its predecessor held and the first becomes
        0. The total is not yet recomputed. */
    method AgePile()
      requires Valid()
      modifies this
      ensures pile == Rotate(old(pile), keys, 0.0) && StoreOk(Store(pile, PileSum(pile)))
      ensures Context() == old(Context()) && KeyOrder(keys)
      ensures nutritionInfo == old(nutritionInfo) && RecordsOk(nutritionInfo) && neededPrey == old(neededPrey)
    {
      var previousAmount := 0.0;
      for i := 0 to |keys|
        invariant Context() == old(Context()) && KeyOrder(keys)
        invariant Complete(pile) && (forall b :: pile[b] >= 0.0) && previousAmount >= 0.0
        invariant Rotate(pile, keys[i..], previousAmount) == Rotate(old(pile), keys, 0.0)
        invariant nutritionInfo == old(nutritionInfo) && neededPrey == old(neededPrey)
      {
        var key := keys[i];
        var value := pile[key];
        assert keys[i..][1..] == keys[i + 1..];
        pile := pile[key := previousAmount];
        previousAmount := value;
      }
      assert keys[|keys|..] == [];
    }

    /** The part of `time_skip` before the feeding: the pile aged, its total
        recomputed, the fed list cleared and the tick flag set. */
    method StartTick()
      requires Valid()
      modifies this
      ensures Valid() && timeskipFeed
      ensures keys == old(keys) && livingCats == old(livingCats) && fedKits == old(fedKits)
      ensures queens == old(queens) && isManualFeeding == old(isManualFeeding)
      ensures Abs() == PassState(Store(Rotate(old(pile), keys, 0.0), PileSum(pile)), old(nutritionInfo), [], old(neededPrey))
    {
      AgePile();
      totalAmount := PileSum(pile);
      alreadyFed := [];
      timeskipFeed := true;
    }

    /** `time_skip(living_cats)`: the pile is aged along its key order (each
        sub-pile takes its predecessor's amount, the first 0), the living
        cats are fed as a tick, and the prey needed and the total are
        recomputed. The expiry and consumption messages are not modelled. */
    method TimeSkip(living: CatList, all: seq<Cat>, cfg: Config)
      requires Valid() && FeedPre(Abs(), living.items, living.items, all, cfg)
      modifies this, living
      ensures Valid() && keys == old(keys) && livingCats == living
      ensures !timeskipFeed && !isManualFeeding && fedKits == [] && queens == []
      ensures (Abs(), living.items) == TimeSkipSpec(old(Abs()), old(keys), old(living.items), all, cfg)
    {
      ghost var s0, items := Abs(), living.items;
      livingCats := living;
      StartTick();
      TickKeepsFeedPre(s0, keys, items, all, cfg);
      FeedCats(living, false, all, cfg);
      EndTick(all, cfg);
      TimeSkipSplit(s0, keys, items, all, cfg);
    }

    /** The end of `time_skip`: the tick flag cleared, the prey needed
        recomputed for the living cats and the total recomputed. */
    method EndTick(all: seq<Cat>, cfg: Config)
      requires Valid() && ConfigOk(cfg) && RanksKnown(livingCats.items, cfg)
      modifies this
      ensures Valid() && !timeskipFeed && keys == old(keys) && livingCats == old(livingCats)
      ensures isManualFeeding == old(isManualFeeding) && fedKits == old(fedKits) && queens == old(queens)
      ensures Abs() == old(Abs()).(neededPrey := NeededFood(livingCats.items, livingCats.items, all, cfg))
    {
      timeskipFeed := false;
      UpdateNeededFood(livingCats.items, all, cfg);
      UpdateTotalAmount();
    }
  }

  /** One more cat of a group: the fold over the longer prefix is one more
      step, and that cat can still be served. */
  lemma GroupStep(s0: PassState, group: seq<Cat>, i: nat, env: Env)
    requires StateOk(s0) && ConfigOk(env.cfg) && AllReady(s0, group, env) && i < |group|
    ensures AllReady(s0, group[..i], env)
    ensures Ready(FeedGroupSpec(s0, group[..i], env), group[i], env)
    ensures FeedGroupSpec(s0, group[..i + 1], env) == FeedOne(FeedGroupSpec(s0, group[..i], env), group[i], env)
  {
    assert forall x :: x in group[..i] ==> x in group;
    assert group[..i + 1][..i] == group[..i];
    ReadyKept(s0, FeedGroupSpec(s0, group[..i], env), group[i], env);
  }

  /** Every cat of a listed group, and every queen, can be served. */
  lemma ListedReady(s: PassState, cats: seq<Cat>, queens: seq<Cat>, env: Env)
    requires ConfigOk(env.cfg) && Tabled(cats, env.cfg) && env.queens == IdSet(queens)
    requires forall c :: c in cats ==> c.id in s.nutrition
    requires forall q :: q in queens ==> q.id in s.nutrition
    ensures AllReady(s, cats, env) && AllReady(s, queens, env)
  {
    forall q | q in queens ensures q.id in env.queens {
      assert q.id in IdSet(queens);
    }
    ListReady(s, cats, queens, env);
  }

  /** Every queen in the key order of a well-formed dictionary has a list. */
  lemma OrderKeyed(d: QueenDict)
    requires d.Wf()
    ensures forall q :: q in d.order ==> q in d.kits
  {
    forall q | q in d.order ensures q in d.kits {
      assert q in (set x | x in d.order);
    }
  }

  /** One more status of the rank tactic: its group, youngest first, is fed
      after the groups before it. */
  lemma RankStep(s0: PassState, cats: seq<Cat>, queens: seq<Cat>, order: seq<Status>, i: nat, env: Env)
    requires StateOk(s0) && ConfigOk(env.cfg) && AllReady(s0, cats, env) && AllReady(s0, queens, env)
    requires i < |order|
    ensures var before := RankOrder(cats, order[..i], queens, env);
            var g := SortBy(RankGroup(cats, order[i], queens, env), Moons, false);
            RankOrder(cats, order[..i + 1], queens, env) == before + g
            && AllReady(s0, before + g, env)
            && AllReady(FeedGroupSpec(s0, before, env), g, env)
            && FeedGroupSpec(s0, before + g, env) == FeedGroupSpec(FeedGroupSpec(s0, before, env), g, env)
            && (RankGroup(cats, order[i], queens, env) == [] ==> before + g == before)
  {
    assert order[..i + 1][..i] == order[..i];
    var before := RankOrder(cats, order[..i], queens, env);
    var g := SortBy(RankGroup(cats, order[i], queens, env), Moons, false);
    assert RankOrder(cats, order[..i + 1], queens, env) == before + g;
    FeedGroupAppend(s0, before, g, env);
    if RankGroup(cats, order[i], queens, env) == [] {
      assert g == [];
    }
  }

  /** The hunters found and the list left after search ranks 1 to `n`. */
  ghost function HuntRounds(cats: seq<Cat>, n: nat): (seq<Cat>, seq<Cat>)
  {
    if n == 0 then ([], cats)
    else
      var prev := HuntRounds(cats, n - 1);
      (Reverse(Tiered(prev.1, n)) + prev.0, Untiered(prev.1, n))
  }

  /** After the three search ranks: the hunters and the list `_feed_hunters`
      leaves are those of `HuntersFirst`. */
  lemma HuntRoundsAll(cats: seq<Cat>)
    ensures HuntRounds(cats, 3) == HuntersFirst(cats)
  {
    HuntRoundsLeft(cats);
    HuntRoundsFound(cats);
  }

  lemma HuntRoundsOne(cats: seq<Cat>)
    ensures HuntRounds(cats, 1) == (Reverse(Tiered(cats, 1)), Untiered(cats, 1))
  {
    assert HuntRounds(cats, 0) == ([], cats);
    assert Reverse(Tiered(cats, 1)) + [] == Reverse(Tiered(cats, 1));
  }

  lemma HuntRoundsTwo(cats: seq<Cat>)
    ensures var l1 := Untiered(cats, 1);
            HuntRounds(cats, 2) == (Reverse(Tiered(l1, 2)) + Reverse(Tiered(cats, 1)), Untiered(l1, 2))
  {
    HuntRoundsOne(cats);
  }

  lemma HuntRoundsLeft(cats: seq<Cat>)
    ensures HuntRounds(cats, 3).1 == HuntersFirst(cats).1
  {
    HuntRoundsTwo(cats);
  }

  lemma HuntRoundsFound(cats: seq<Cat>)
    ensures HuntRounds(cats, 3).0 == HuntersFirst(cats).0
  {
    HuntRoundsTwo(cats);
  }

  /** One cat of the inner loop of `_feed_hunters` that is picked: it goes to
      the front of the hunters and out of the list. */
  lemma HuntPicked(pre: seq<Cat>, c: Cat, rest: seq<Cat>, t: int, found: seq<Cat>)
    requires HunterAt(c, t)
    ensures Reverse(Tiered(pre + [c], t)) + found == [c] + (Reverse(Tiered(pre, t)) + found)
    ensures Untiered(pre + [c], t) == Untiered(pre, t)
    ensures Remove(Untiered(pre, t) + ([c] + rest), c) == Untiered(pre, t) + rest
  {
    TierSnoc(pre, c, t);
    ReverseSnoc(Tiered(pre, t), c);
    AppendAssoc([c], Reverse(Tiered(pre, t)), found);
    AppendAssoc(Untiered(pre, t), [c], rest);
    RemoveAfterPrefix(Untiered(pre, t), c, rest);
  }

  /** One cat of the inner loop of `_feed_hunters` that is not picked: it
      stays in the list. */
  lemma HuntPassed(pre: seq<Cat>, c: Cat, rest: seq<Cat>, t: int)
    requires !HunterAt(c, t)
    ensures Tiered(pre + [c], t) == Tiered(pre, t)
    ensures Untiered(pre, t) + ([c] + rest) == Untiered(pre + [c], t) + rest
  {
    TierSnoc(pre, c, t);
    AppendAssoc(Untiered(pre, t), [c], rest);
  }

  /** A cat appended to the list lands in exactly one of the two parts. */
  lemma TierSnoc(cats: seq<Cat>, c: Cat, t: int)
    ensures HunterAt(c, t) ==> Tiered(cats + [c], t) == Tiered(cats, t) + [c] && Untiered(cats + [c], t) == Untiered(cats, t)
    ensures !HunterAt(c, t) ==> Tiered(cats + [c], t) == Tiered(cats, t) && Untiered(cats + [c], t) == Untiered(cats, t) + [c]
  {
    var s := cats + [c];
    assert s[..|s| - 1] == cats;
    assert Tiered(cats, t) + [] == Tiered(cats, t);
    assert Untiered(cats, t) + [] == Untiered(cats, t);
  }

  lemma ReverseSnoc<T(!new)>(s: seq<T>, x: T)
    ensures Reverse(s + [x]) == [x] + Reverse(s)
  {
    var r := Reverse(s + [x]);
    assert |r| == |[x] + Reverse(s)|;
    forall i | 0 <= i < |r| ensures r[i] == ([x] + Reverse(s))[i] {
      if i > 0 {
        assert r[i] == (s + [x])[|s| - i];
      }
    }
  }

  /** Setting a record, new or not, keeps every record within bounds. */
  lemma RecordUpdatedOrAdded(info: map<CatId, Nutrition>, id: CatId, n: Nutrition)
    requires RecordsOk(info) && NutritionOk(n)
    ensures RecordsOk(info[id := n])
  {
  }
}
