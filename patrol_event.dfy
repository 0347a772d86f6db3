/** The `PatrolEvent` class of scripts/events_module/patrol/patrol_event.py:
    a patrol's constraints, whose number and narrowness set the patrol's
    weight when it is built, and its four outcome lists, which the
    `new_cat`, `other_clan` and `herbs_given` properties search. */
module PatrolEvent {
  import opened Common

  /** The parts of a patrol outcome the properties read: the `new_cat`
      sublists, the reputation change with another Clan (None when the
      outcome has none) and the herbs it gives. */
  datatype Outcome = Outcome(newCat: seq<seq<string>>, otherClanRep: Option<int>, herbs: seq<string>)

  /** The weight `__init__` gives a patrol: 1, plus 4 for a biome constraint,
      4 for a camp constraint, and `seasonCount - |season|` for a season
      constraint (fewer seasons named, more weight), plus `6 - (max - min)`
      for the cat range (narrower, more weight), 2 per rank bound, 3 per
      relationship constraint and 1 per skill or trait constraint. */
  function PatrolWeight(biome: seq<string>, camp: seq<string>, season: seq<string>, seasonCount: int,
                        minCats: int, maxCats: int, statuses: nat, relations: nat, skills: nat, traits: nat): int
  {
    1 + (if "any" in biome then 0 else 4)
      + (if "any" in camp then 0 else 4)
      + (if "any" in season then 0 else seasonCount - |season|)
      + (6 - (maxCats - minCats))
      + 2 * statuses + 3 * relations + skills + traits
  }

  /** `x if x is not None else default`. */
  function OrDefault<T>(x: Option<T>, default: T): T
  {
    if x.Some? then x.value else default
  }

  class PatrolEvent {
    var patrolId: string
    var biome: seq<string>
    var camp: seq<string>
    var season: seq<string>
    var types: seq<string>
    var tags: seq<string>
    var frequency: int
    var patrolArt: Option<string>
    var patrolArtClean: Option<string>
    var introText: string
    var declineText: string
    var chanceOfSuccess: int
    var successOutcomes: seq<Outcome>
    var failOutcomes: seq<Outcome>
    var antagSuccessOutcomes: seq<Outcome>
    var antagFailOutcomes: seq<Outcome>
    var minCats: int
    var maxCats: int
    var minMaxStatus: map<string, seq<int>>
    var relationshipConstraints: seq<string>
    var plSkillConstraints: seq<string>
    var plTraitConstraints: seq<string>
    var weight: int

    /** The outcome lists in the order the properties walk them: success,
        fail, antagonise-fail, antagonise-success. */
    function Outcomes(): seq<Outcome>
      reads this
    {
      successOutcomes + failOutcomes + antagFailOutcomes + antagSuccessOutcomes
    }

    /** `__init__`: a missing list becomes its default (`["any"]` for biome,
        camp and season, empty otherwise) and the weight is accumulated one
        constraint at a time. `seasonCount` is the length of the game's
        season list. */
    constructor (patrolId: string, biome: Option<seq<string>>, camp: Option<seq<string>>,
                 season: Option<seq<string>>, seasonCount: int, types: Option<seq<string>>,
                 tags: Option<seq<string>>, frequency: int, patrolArt: Option<string>,
                 patrolArtClean: Option<string>, introText: string, declineText: string,
                 chanceOfSuccess: int, successOutcomes: Option<seq<Outcome>>,
                 failOutcomes: Option<seq<Outcome>>, antagSuccessOutcomes: Option<seq<Outcome>>,
                 antagFailOutcomes: Option<seq<Outcome>>, minCats: int, maxCats: int,
                 minMaxStatus: Option<map<string, seq<int>>>, relationshipConstraints: Option<seq<string>>,
                 plSkillConstraints: Option<seq<string>>, plTraitConstraints: Option<seq<string>>)
      ensures this.biome == OrDefault(biome, ["any"])
      ensures this.camp == OrDefault(camp, ["any"])
      ensures this.season == OrDefault(season, ["any"])
      ensures this.types == OrDefault(types, [])
      ensures this.tags == OrDefault(tags, [])
      ensures this.minMaxStatus == OrDefault(minMaxStatus, map[])
      ensures this.relationshipConstraints == OrDefault(relationshipConstraints, [])
      ensures this.plSkillConstraints == OrDefault(plSkillConstraints, [])
      ensures this.plTraitConstraints == OrDefault(plTraitConstraints, [])
      ensures this.successOutcomes == OrDefault(successOutcomes, [])
      ensures this.failOutcomes == OrDefault(failOutcomes, [])
      ensures this.antagSuccessOutcomes == OrDefault(antagSuccessOutcomes, [])
      ensures this.antagFailOutcomes == OrDefault(antagFailOutcomes, [])
      ensures this.patrolId == patrolId && this.frequency == frequency && this.chanceOfSuccess == chanceOfSuccess
      ensures this.patrolArt == patrolArt && this.patrolArtClean == patrolArtClean
      ensures this.introText == introText && this.declineText == declineText
      ensures this.minCats == minCats && this.maxCats == maxCats
      ensures weight == PatrolWeight(this.biome, this.camp, this.season, seasonCount, minCats, maxCats,
                                     |this.minMaxStatus|, |this.relationshipConstraints|,
                                     |this.plSkillConstraints|, |this.plTraitConstraints|)
    {
      var biomeList := OrDefault(biome, ["any"]);
      var campList := OrDefault(camp, ["any"]);
      var seasonList := OrDefault(season, ["any"]);
      var statusMap := OrDefault(minMaxStatus, map[]);
      var relations := OrDefault(relationshipConstraints, []);
      var skills := OrDefault(plSkillConstraints, []);
      var traits := OrDefault(plTraitConstraints, []);
      var w := AccumulateWeight(biomeList, campList, seasonList, seasonCount, minCats, maxCats,
                                |statusMap|, |relations|, |skills|, |traits|);
      this.weight := w;
      this.patrolId := patrolId;
      this.frequency := frequency;
      this.types := OrDefault(types, []);
      this.patrolArt := patrolArt;
      this.patrolArtClean := patrolArtClean;
      this.biome := biomeList;
      this.camp := campList;
      this.season := seasonList;
      this.tags := OrDefault(tags, []);
      this.chanceOfSuccess := chanceOfSuccess;
      this.minCats := minCats;
      this.maxCats := maxCats;
      this.minMaxStatus := statusMap;
      this.relationshipConstraints := relations;
      this.plSkillConstraints := skills;
      this.plTraitConstraints := traits;
      this.introText := introText;
      this.declineText := declineText;
      this.successOutcomes := OrDefault(successOutcomes, []);
      this.failOutcomes := OrDefault(failOutcomes, []);
      this.antagSuccessOutcomes := OrDefault(antagSuccessOutcomes, []);
      this.antagFailOutcomes := OrDefault(antagFailOutcomes, []);
    }

    /** The weight accumulation of `__init__`, one constraint at a time. */
    static method AccumulateWeight(biome: seq<string>, camp: seq<string>, season: seq<string>, seasonCount: int,
                                   minCats: int, maxCats: int, statuses: nat, relations: nat, skills: nat, traits: nat)
      returns (weight: int)
      ensures weight == PatrolWeight(biome, camp, season, seasonCount, minCats, maxCats, statuses, relations, skills, traits)
    {
      weight := 1;
      if "any" !in biome {
        weight := weight + 4;
      }
      if "any" !in camp {
        weight := weight + 4;
      }
      if "any" !in season {
        // fewer seasons named, more weight
        weight := weight + (seasonCount - |season|);
      }
      // the narrower the range of cats, the more weight
      weight := weight + (6 - (maxCats - minCats));
      weight := weight + statuses * 2;
      weight := weight + relations * 3;
      weight := weight + skills;
      weight := weight + traits;
    }

    /** `new_cat`: some outcome has a `new_cat` sublist naming "join" (a cat
        joining, not only met). */
    method NewCat() returns (found: bool)
      ensures found <==> exists o, sub :: o in Outcomes() && sub in o.newCat && "join" in sub
    {
      var outs := Outcomes();
      for i := 0 to |outs|
        invariant forall k, sub :: 0 <= k < i && sub in outs[k].newCat ==> "join" !in sub
      {
        var out := outs[i];
        for j := 0 to |out.newCat|
          invariant forall k, sub :: 0 <= k < i && sub in outs[k].newCat ==> "join" !in sub
          invariant forall l :: 0 <= l < j ==> "join" !in out.newCat[l]
        {
          if "join" in out.newCat[j] {
            return true;
          }
        }
      }
      return false;
    }

    /** `other_clan`: some outcome changes the reputation with another Clan. */
    method OtherClan() returns (found: bool)
      ensures found <==> exists o :: o in Outcomes() && o.otherClanRep.Some?
    {
      var outs := Outcomes();
      for i := 0 to |outs|
        invariant forall k :: 0 <= k < i ==> outs[k].otherClanRep.None?
      {
        if outs[i].otherClanRep.Some? {
          return true;
        }
      }
      return false;
    }

    /** `herbs_given`: the herbs of every outcome, gathered outcome by
        outcome, each herb of an outcome added unless already gathered.
        With `intended` false the test is against the herbs gathered before
        this outcome (as written); with `intended` true it also counts the
        herbs this outcome has added so far. */
    method HerbsGiven(intended: bool) returns (herbList: seq<string>)
      ensures herbList == HerbList(intended, Outcomes())
    {
      var outs := Outcomes();
      herbList := [];
      for i := 0 to |outs|
        invariant herbList == HerbList(intended, outs[..i])
      {
        PrefixStep(outs, i);
        var added := HerbsAdded(intended, herbList, outs[i].herbs);
        herbList := herbList + added;
      }
      PrefixAll(outs);
    }

    /** The inner loop of `herbs_given`: the herbs of one outcome that are
        added to those gathered so far. */
    static method HerbsAdded(intended: bool, herbList: seq<string>, herbs: seq<string>) returns (added: seq<string>)
      ensures added == NewHerbs(intended, herbList, herbs)
    {
      added := [];
      for j := 0 to |herbs|
        invariant added == NewHerbs(intended, herbList, herbs[..j])
      {
        PrefixStep(herbs, j);
        if herbs[j] !in herbList && (!intended || herbs[j] !in added) {
          added := added + [herbs[j]];
        }
      }
      PrefixAll(herbs);
    }
  }

  /** The herbs of `herbs` added to `gathered`: those not yet gathered, and
      with `intended` also not added earlier from `herbs`. */
  function NewHerbs(intended: bool, gathered: seq<string>, herbs: seq<string>): (r: seq<string>)
    ensures forall h :: h in r ==> h in herbs && h !in gathered
  {
    if herbs == [] then []
    else
      var front := NewHerbs(intended, gathered, herbs[..|herbs| - 1]);
      var h := herbs[|herbs| - 1];
      front + if h !in gathered && (!intended || h !in front) then [h] else []
  }

  /** The list `herbs_given` returns for `outs`. */
  function HerbList(intended: bool, outs: seq<Outcome>): seq<string>
  {
    if outs == [] then []
    else
      var gathered := HerbList(intended, outs[..|outs| - 1]);
      gathered + NewHerbs(intended, gathered, outs[|outs| - 1].herbs)
  }

  /** Every herb of `herbs` not gathered is added, whichever test is used. */
  lemma {:induction false} NewHerbsComplete(intended: bool, gathered: seq<string>, herbs: seq<string>)
    ensures forall h :: h in herbs ==> h in gathered || h in NewHerbs(intended, gathered, herbs)
  {
    if herbs != [] {
      NewHerbsComplete(intended, gathered, herbs[..|herbs| - 1]);
      forall h | h in herbs
        ensures h in gathered || h in NewHerbs(intended, gathered, herbs)
      {
        if h != herbs[|herbs| - 1] {
          assert h in herbs[..|herbs| - 1];
        }
      }
    }
  }

  /** With the intended test, the herbs an outcome adds are distinct. */
  lemma {:induction false} NewHerbsDistinct(gathered: seq<string>, herbs: seq<string>)
    ensures NoDup(NewHerbs(true, gathered, herbs))
  {
    if herbs != [] {
      NewHerbsDistinct(gathered, herbs[..|herbs| - 1]);
      var front := NewHerbs(true, gathered, herbs[..|herbs| - 1]);
      var h := herbs[|herbs| - 1];
      if h !in gathered && h !in front {
        NoDupSnoc(front, h);
      }
    }
  }

  /** A herb is in the list exactly when some outcome gives it. */
  lemma {:induction false} HerbListMembers(intended: bool, outs: seq<Outcome>)
    ensures forall h :: h in HerbList(intended, outs) <==> exists o :: o in outs && h in o.herbs
  {
    if outs != [] {
      var front := outs[..|outs| - 1];
      var last := outs[|outs| - 1];
      HerbListMembers(intended, front);
      NewHerbsComplete(intended, HerbList(intended, front), last.herbs);
      assert outs == front + [last];
      forall h ensures h in HerbList(intended, outs) <==> exists o :: o in outs && h in o.herbs {
        if h in HerbList(intended, outs) {
          if h in HerbList(intended, front) {
            var o :| o in front && h in o.herbs;
            assert o in outs;
          } else {
            assert last in outs;
          }
        } else {
          forall o | o in outs ensures h !in o.herbs {
            if o != last {
              assert o in front;
            }
          }
        }
      }
    }
  }

  /** With the intended test, no herb is listed twice. */
  lemma {:induction false} HerbListDistinct(outs: seq<Outcome>)
    ensures NoDup(HerbList(true, outs))
  {
    if outs != [] {
      var gathered := HerbList(true, outs[..|outs| - 1]);
      HerbListDistinct(outs[..|outs| - 1]);
      var added := NewHerbs(true, gathered, outs[|outs| - 1].herbs);
      NewHerbsDistinct(gathered, outs[|outs| - 1].herbs);
      NoDupAppend(gathered, added);
    }
  }

  /** Two distinct lists with nothing in common join into a distinct list. */
  lemma NoDupAppend(a: seq<string>, b: seq<string>)
    requires NoDup(a) && NoDup(b) && forall x :: x in b ==> x !in a
    ensures NoDup(a + b)
  {
    forall i, j | 0 <= i < j < |a + b| ensures (a + b)[i] != (a + b)[j] {
      if j >= |a| && i < |a| {
        assert (a + b)[j] in b;
      }
    }
  }

  /** Every herb the outcomes name, outcome after outcome, repeats kept. */
  function AllHerbs(outs: seq<Outcome>): (r: seq<string>)
    ensures forall h :: h in r <==> exists o :: o in outs && h in o.herbs
  {
    if outs == [] then []
    else
      var front := outs[..|outs| - 1];
      assert outs == front + [outs[|outs| - 1]];
      AllHerbs(front) + outs[|outs| - 1].herbs
  }

  /** `s` with each element kept at its first occurrence only. */
  function FirstSeen(s: seq<string>): (r: seq<string>)
    ensures NoDup(r)
    ensures forall h :: h in r <==> h in s
  {
    if s == [] then []
    else
      var d := FirstSeen(s[..|s| - 1]);
      var h := s[|s| - 1];
      assert s == s[..|s| - 1] + [h];
      if h in d then d else NoDupSnoc(d, h); d + [h]
  }

  /** Reading `b` after `a` adds to `a`'s first occurrences the herbs of `b`
      that the intended test lets through. */
  lemma {:induction false} FirstSeenAppend(a: seq<string>, b: seq<string>)
    ensures FirstSeen(a + b) == FirstSeen(a) + NewHerbs(true, FirstSeen(a), b)
  {
    if b == [] {
      assert a + b == a;
    } else {
      var b', h := b[..|b| - 1], b[|b| - 1];
      FirstSeenAppend(a, b');
      var d, front := FirstSeen(a + b'), NewHerbs(true, FirstSeen(a), b');
      assert (a + b)[..|a + b| - 1] == a + b' && (a + b)[|a + b| - 1] == h;
      assert FirstSeen(a + b) == if h in d then d else d + [h];
      assert NewHerbs(true, FirstSeen(a), b) == front + if h !in FirstSeen(a) && h !in front then [h] else [];
    }
  }

  /** With the intended test, the list holds each herb of the outcomes once,
      in the order in which the outcomes first name it. */
  lemma {:induction false} HerbListFirstSeen(outs: seq<Outcome>)
    ensures HerbList(true, outs) == FirstSeen(AllHerbs(outs))
  {
    if outs != [] {
      var front := outs[..|outs| - 1];
      HerbListFirstSeen(front);
      FirstSeenAppend(AllHerbs(front), outs[|outs| - 1].herbs);
    }
  }

  /** As written, a herb named twice by one outcome is listed twice. */
  lemma HerbsDuplicatedAsWritten()
    ensures HerbList(false, [Outcome([], None, ["moss", "moss"])]) == ["moss", "moss"]
    ensures !NoDup(HerbList(false, [Outcome([], None, ["moss", "moss"])]))
  {
    var outs := [Outcome([], None, ["moss", "moss"])];
    assert outs[..0] == [];
    assert ["moss", "moss"][..1] == ["moss"];
    assert ["moss"][..0] == [];
    assert HerbList(false, outs) == ["moss", "moss"];
  }

  /** A patrol with every default weighs 2. */
  lemma DefaultWeight(seasonCount: int)
    ensures PatrolWeight(["any"], ["any"], ["any"], seasonCount, 1, 6, 0, 0, 0, 0) == 2
  {
  }

  /** Each constraint added raises the weight: a biome or camp constraint by
      4, a rank bound by 2, a relationship constraint by 3, a skill or trait
      constraint by 1, and narrowing the cat range by one cat by 1. */
  lemma ConstraintsRaiseWeight(biome: seq<string>, camp: seq<string>, season: seq<string>, seasonCount: int,
                               minCats: int, maxCats: int, statuses: nat, relations: nat, skills: nat, traits: nat)
    ensures var w := PatrolWeight(biome, camp, season, seasonCount, minCats, maxCats, statuses, relations, skills, traits);
            PatrolWeight(biome, camp, season, seasonCount, minCats, maxCats, statuses + 1, relations, skills, traits) == w + 2
            && PatrolWeight(biome, camp, season, seasonCount, minCats, maxCats, statuses, relations + 1, skills, traits) == w + 3
            && PatrolWeight(biome, camp, season, seasonCount, minCats, maxCats, statuses, relations, skills + 1, traits) == w + 1
            && PatrolWeight(biome, camp, season, seasonCount, minCats, maxCats, statuses, relations, skills, traits + 1) == w + 1
            && PatrolWeight(biome, camp, season, seasonCount, minCats + 1, maxCats, statuses, relations, skills, traits) == w + 1
            && PatrolWeight(biome, camp, season, seasonCount, minCats, maxCats - 1, statuses, relations, skills, traits) == w + 1
            && ("any" in biome ==> PatrolWeight(["forest"], camp, season, seasonCount, minCats, maxCats, statuses, relations, skills, traits) == w + 4)
            && ("any" in camp ==> PatrolWeight(biome, ["camp1"], season, seasonCount, minCats, maxCats, statuses, relations, skills, traits) == w + 4)
  {
  }

  /** Naming fewer seasons weighs more: a patrol restricted to one season
      outweighs one restricted to two. */
  lemma FewerSeasonsWeighMore(a: string, b: string, biome: seq<string>, camp: seq<string>, seasonCount: int,
                              minCats: int, maxCats: int, statuses: nat, relations: nat, skills: nat, traits: nat)
    requires a != "any" && b != "any"
    ensures PatrolWeight(biome, camp, [a], seasonCount, minCats, maxCats, statuses, relations, skills, traits)
            == PatrolWeight(biome, camp, [a, b], seasonCount, minCats, maxCats, statuses, relations, skills, traits) + 1
  {
  }
}
