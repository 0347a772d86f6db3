/** Look-ups over the Clan's cats (scripts/clan_package/get_clan_cats.py):
    which queen nurses which kit, cats of given ranks, the number of living
    Clan cats and cats of about the same age.

    `Cat.all_cats`, the game's dictionary from ID to cat, is passed around as
    a registry: the sequence of its values in insertion order. */
module ClanCats {
  import opened Common

  type CatId = nat

  datatype Rank =
    | Newborn | Kitten | Apprentice | MedicineApprentice | MediatorApprentice
    | Warrior | Mediator | MedicineCat | Deputy | Leader | Elder
  {
    /** `CatRank.is_baby()`. */
    predicate IsBaby() { this == Newborn || this == Kitten }
  }

  datatype SkillPath = Hunter | OtherPath
  datatype Skill = Skill(path: SkillPath, tier: int)
  datatype Skills = Skills(primary: Option<Skill>, secondary: Option<Skill>)

  /** The attributes of a cat that the modelled code reads. */
  datatype Cat = Cat(
    id: CatId,
    rank: Rank,
    moons: int,
    gender: string,
    pregnant: bool,          // "pregnant" in cat.injuries
    ill: bool,               // cat.is_ill()
    injured: bool,           // cat.is_injured()
    notWorking: bool,        // cat.not_working()
    parents: seq<CatId>,     // cat.get_parents()
    skills: Option<Skills>,
    experience: int,
    aliveInClan: bool)       // cat.status.alive_in_player_clan

  /** The IDs of a registry are keys of a dictionary, hence distinct. */
  predicate DistinctIds(all: seq<Cat>)
  {
    forall i, j :: 0 <= i < j < |all| ==> all[i].id != all[j].id
  }

  function Ids(cats: seq<Cat>): (r: seq<CatId>)
    ensures |r| == |cats|
    ensures forall i :: 0 <= i < |cats| ==> r[i] == cats[i].id
  {
    if cats == [] then [] else [cats[0].id] + Ids(cats[1..])
  }

  /** `Cat.fetch_cat(id)`: the registered cat with that ID, or None. */
  function Fetch(all: seq<Cat>, id: CatId): (r: Option<Cat>)
    ensures r.Some? ==> r.value in all && r.value.id == id
    ensures r.None? <==> forall i :: 0 <= i < |all| ==> all[i].id != id
  {
    if all == [] then None
    else if all[0].id == id then Some(all[0])
    else Fetch(all[1..], id)
  }

  // ---------------------------------------------------------------------------
  // get_alive_clan_queens
  // ---------------------------------------------------------------------------

  /** The parents named by `ids` that are registered and alive in the Clan, in
      order (the list comprehension over `cat.get_parents()`). */
  function AliveParents(all: seq<Cat>, ids: seq<CatId>): (ps: seq<Cat>)
    ensures |ps| <= |ids|
    ensures forall p :: p in ps ==> p in all && p.aliveInClan && Fetch(all, p.id) == Some(p)
  {
    if ids == [] then []
    else
      var f := Fetch(all, ids[0]);
      if f.Some? && f.value.aliveInClan then [f.value] + AliveParents(all, ids[1..])
      else AliveParents(all, ids[1..])
  }

  predicate AllMale(ps: seq<Cat>)
  {
    forall i :: 0 <= i < |ps| ==> ps[i].gender == "male"
  }

  /** The parent credited with nursing the kit: the first parent when there is
      one, more than two, only male parents or a female first parent;
      otherwise (two parents, not all male, the first not female) the second. */
  function QueenOf(ps: seq<Cat>): (q: CatId)
    requires ps != []
    ensures q == ps[0].id || (|ps| == 2 && q == ps[1].id)
    ensures q == ps[0].id <== |ps| != 2 || AllMale(ps) || ps[0].gender == "female"
    ensures |ps| == 2 && !AllMale(ps) && ps[0].gender != "female" ==> q == ps[1].id
  {
    if |ps| == 1 || |ps| > 2 || AllMale(ps) || ps[0].gender == "female" then ps[0].id
    else ps[1].id
  }

  /** A kit none of whose parents is alive in the Clan. */
  predicate Orphan(all: seq<Cat>, kit: Cat)
  {
    AliveParents(all, kit.parents) == []
  }

  function Mother(all: seq<Cat>, kit: Cat): CatId
    requires !Orphan(all, kit)
  {
    QueenOf(AliveParents(all, kit.parents))
  }

  /** The alive babies (newborns and kittens) of a list of cats. */
  function Babies(living: seq<Cat>): seq<Cat>
  {
    if living == [] then []
    else (if living[0].aliveInClan && living[0].rank.IsBaby() then [living[0]] else [])
         + Babies(living[1..])
  }

  lemma {:induction false} BabiesMember(living: seq<Cat>, c: Cat)
    ensures c in Babies(living) <==> c in living && c.aliveInClan && c.rank.IsBaby()
  {
    if living != [] {
      BabiesMember(living[1..], c);
      assert living == [living[0]] + living[1..];
    }
  }

  /** `queen_dict`: its keys in insertion order and, per queen, the kits she
      nurses. */
  datatype QueenDict = QueenDict(order: seq<CatId>, kits: map<CatId, seq<Cat>>)
  {
    ghost predicate Wf()
    {
      NoDup(order) && (set q | q in order) == kits.Keys
    }
  }

  /** The kits listed under `q` (none when `q` is no key). */
  function KitsOf(d: QueenDict, q: CatId): seq<Cat>
  {
    if q in d.kits then d.kits[q] else []
  }

  /** Appends `kit` to the list of `q`, creating the key at the end when `q`
      is not yet one. */
  function AddKit(d: QueenDict, q: CatId, kit: Cat): (r: QueenDict)
    requires d.Wf()
    ensures r.Wf()
    ensures forall x :: x in r.kits <==> x in d.kits || x == q
    ensures forall x :: KitsOf(r, x) == if x == q then KitsOf(d, x) + [kit] else KitsOf(d, x)
  {
    if q in d.kits then QueenDict(d.order, d.kits[q := d.kits[q] + [kit]])
    else QueenDict(d.order + [q], d.kits[q := [kit]])
  }

  /** `queen_dict` after the loop has visited `kits`. */
  function Nurseries(all: seq<Cat>, kits: seq<Cat>): (d: QueenDict)
    ensures d.Wf()
  {
    if kits == [] then QueenDict([], map[])
    else
      var d := Nurseries(all, kits[..|kits| - 1]);
      var k := kits[|kits| - 1];
      if Orphan(all, k) then d else AddKit(d, Mother(all, k), k)
  }

  /** A kit sits under a queen exactly when it has an alive parent and that
      queen is the parent chosen for it. */
  lemma {:induction false} NurseriesKits(all: seq<Cat>, kits: seq<Cat>, q: CatId, c: Cat)
    ensures c in KitsOf(Nurseries(all, kits), q) <==> c in kits && !Orphan(all, c) && Mother(all, c) == q
  {
    if kits != [] {
      var front := kits[..|kits| - 1];
      NurseriesKits(all, front, q, c);
      assert kits == front + [kits[|kits| - 1]];
    }
  }

  /** Every key of `queen_dict` is an alive Clan cat of the registry. */
  lemma {:induction false} NurseriesQueensRegistered(all: seq<Cat>, kits: seq<Cat>, q: CatId)
    requires q in Nurseries(all, kits).kits
    ensures Fetch(all, q).Some? && Fetch(all, q).value.aliveInClan
  {
    var front := kits[..|kits| - 1];
    var k := kits[|kits| - 1];
    if !Orphan(all, k) && q == Mother(all, k) {
      var ps := AliveParents(all, k.parents);
      var p := if q == ps[0].id then ps[0] else ps[1];
      assert p in ps;
    } else {
      NurseriesQueensRegistered(all, front, q);
    }
  }

  /** The kits of `kits` none of whose parents is alive in the Clan, in order. */
  function Orphans(all: seq<Cat>, kits: seq<Cat>): seq<Cat>
  {
    if kits == [] then []
    else
      var k := kits[|kits| - 1];
      Orphans(all, kits[..|kits| - 1]) + if Orphan(all, k) then [k] else []
  }

  lemma {:induction false} OrphansMember(all: seq<Cat>, kits: seq<Cat>, c: Cat)
    ensures c in Orphans(all, kits) <==> c in kits && Orphan(all, c)
  {
    if kits != [] {
      OrphansMember(all, kits[..|kits| - 1], c);
      assert kits == kits[..|kits| - 1] + [kits[|kits| - 1]];
    }
  }

  /** `get_alive_clan_queens(living_cats)`: sorts every alive baby of
      `living` either under the queen that nurses it or, when none of its
      parents is alive in the Clan, into the returned list of kits. */
  method GetAliveClanQueens(all: seq<Cat>, living: seq<Cat>) returns (queenDict: QueenDict, livingKits: seq<Cat>)
    ensures queenDict == Nurseries(all, Babies(living))
    ensures livingKits == Orphans(all, Babies(living))
  {
    var babies := Babies(living);
    livingKits := babies;
    queenDict := QueenDict([], map[]);
    for i := 0 to |babies|
      invariant queenDict == Nurseries(all, babies[..i])
      invariant livingKits == Orphans(all, babies[..i]) + babies[i..]
    {
      var cat := babies[i];
      var parents := AliveParents(all, cat.parents);
      if parents == [] {
        OrphanKept(all, babies, i);
        continue;
      }
      var queen: CatId;
      if |parents| == 1 || |parents| > 2 || AllMale(parents) || parents[0].gender == "female" {
        queen := parents[0].id;
      } else {
        queen := parents[1].id;
      }
      NurseriesStep(all, babies, i);
      queenDict := AddKit(queenDict, queen, cat);
      NursedRemoved(all, babies, i);
      livingKits := Remove(livingKits, cat);
    }
    assert babies[..|babies|] == babies;
  }

  lemma OrphansStep(all: seq<Cat>, babies: seq<Cat>, i: nat)
    requires i < |babies|
    ensures Orphans(all, babies[..i + 1])
            == Orphans(all, babies[..i]) + (if Orphan(all, babies[i]) then [babies[i]] else [])
  {
    assert babies[..i + 1][..i] == babies[..i];
  }

  lemma NurseriesStep(all: seq<Cat>, babies: seq<Cat>, i: nat)
    requires i < |babies|
    ensures Nurseries(all, babies[..i + 1])
            == if Orphan(all, babies[i]) then Nurseries(all, babies[..i])
               else AddKit(Nurseries(all, babies[..i]), Mother(all, babies[i]), babies[i])
  {
    assert babies[..i + 1][..i] == babies[..i];
  }

  lemma OrphanKept(all: seq<Cat>, babies: seq<Cat>, i: nat)
    requires i < |babies| && Orphan(all, babies[i])
    ensures Nurseries(all, babies[..i + 1]) == Nurseries(all, babies[..i])
    ensures Orphans(all, babies[..i]) + babies[i..] == Orphans(all, babies[..i + 1]) + babies[i + 1..]
  {
    OrphansStep(all, babies, i);
    NurseriesStep(all, babies, i);
    assert babies[i..] == [babies[i]] + babies[i + 1..];
  }

  lemma NursedRemoved(all: seq<Cat>, babies: seq<Cat>, i: nat)
    requires i < |babies| && !Orphan(all, babies[i])
    ensures babies[i] in Orphans(all, babies[..i]) + babies[i..]
    ensures Remove(Orphans(all, babies[..i]) + babies[i..], babies[i])
            == Orphans(all, babies[..i + 1]) + babies[i + 1..]
  {
    var cat := babies[i];
    OrphansStep(all, babies, i);
    OrphansMember(all, babies[..i], cat);
    assert babies[i..] == [cat] + babies[i + 1..];
    assert Orphans(all, babies[..i]) + babies[i..] == Orphans(all, babies[..i]) + [cat] + babies[i + 1..];
    RemoveAfterPrefix(Orphans(all, babies[..i]), cat, babies[i + 1..]);
    assert Orphans(all, babies[..i + 1]) == Orphans(all, babies[..i]) + [];
    assert Orphans(all, babies[..i]) + [] == Orphans(all, babies[..i]);
  }

  /** Every alive baby of `living` ends up in exactly one place: under the one
      queen chosen for it, or in the list of kits without an alive parent. */
  lemma ExactlyOnePlace(all: seq<Cat>, living: seq<Cat>, c: Cat)
    requires c in living && c.aliveInClan && c.rank.IsBaby()
    ensures c in Orphans(all, Babies(living)) <==> Orphan(all, c)
    ensures !Orphan(all, c) ==> c in KitsOf(Nurseries(all, Babies(living)), Mother(all, c))
    ensures forall q :: c in KitsOf(Nurseries(all, Babies(living)), q) ==> !Orphan(all, c) && q == Mother(all, c)
  {
    BabiesMember(living, c);
    OrphansMember(all, Babies(living), c);
    forall q | c in KitsOf(Nurseries(all, Babies(living)), q)
      ensures !Orphan(all, c) && q == Mother(all, c)
    {
      NurseriesKits(all, Babies(living), q, c);
    }
    if !Orphan(all, c) {
      NurseriesKits(all, Babies(living), Mother(all, c), c);
    }
  }

  /** A kit without an alive, registered parent stays in the returned kits. */
  lemma OrphanStaysKit(all: seq<Cat>, living: seq<Cat>, c: Cat)
    requires c in living && c.aliveInClan && c.rank.IsBaby()
    requires forall p :: p in c.parents ==> Fetch(all, p).None? || !Fetch(all, p).value.aliveInClan
    ensures c in Orphans(all, Babies(living))
  {
    NoAliveParent(all, c.parents);
    ExactlyOnePlace(all, living, c);
  }

  lemma {:induction false} NoAliveParent(all: seq<Cat>, ids: seq<CatId>)
    requires forall p :: p in ids ==> Fetch(all, p).None? || !Fetch(all, p).value.aliveInClan
    ensures AliveParents(all, ids) == []
  {
    if ids != [] {
      NoAliveParent(all, ids[1..]);
    }
  }

  /** The situation of the queen test: a kit whose first parent is its male
      father and whose second is its female mother is nursed by the mother. */
  lemma MotherIsQueen(father: Cat, mother: Cat, kit: Cat, all: seq<Cat>)
    requires all == [father, mother, kit]
    requires father.id == 1 && mother.id == 2 && kit.id == 3
    requires father.gender == "male" && mother.gender == "female"
    requires father.aliveInClan && mother.aliveInClan
    requires kit.parents == [father.id, mother.id]
    ensures !Orphan(all, kit) && Mother(all, kit) == mother.id
  {
    assert Fetch(all, 1) == Some(father);
    assert Fetch(all, 2) == Some(mother);
    assert AliveParents(all, kit.parents[1..]) == [mother];
    assert AliveParents(all, kit.parents) == [father, mother];
  }

  // ---------------------------------------------------------------------------
  // find_alive_cats_with_rank, get_living_clan_cat_count
  // ---------------------------------------------------------------------------

  function Moons(c: Cat): real { c.moons as real }

  /** All registered cats alive in the Clan whose rank is listed, only working
      ones when `working`, sorted by moons descending when `sort`. */
  function FindAliveCatsWithRank(all: seq<Cat>, ranks: seq<Rank>, working: bool, sort: bool): (r: seq<Cat>)
    ensures forall c :: c in r <==>
      c in all && c.rank in ranks && c.aliveInClan && (working ==> !c.notWorking)
    ensures !sort ==> r == Filter(all, Wanted(ranks, working))
    ensures sort ==> SortedBy(r, Moons, true) && multiset(r) == multiset(Filter(all, Wanted(ranks, working)))
    ensures sort ==> forall m :: Filter(r, KeyIs(Moons, m)) == Filter(Filter(all, Wanted(ranks, working)), KeyIs(Moons, m))
  {
    var inClan := (i: Cat) => i.rank in ranks && i.aliveInClan;
    var alive := Filter(all, inClan);
    var kept := if working then Filter(alive, (i: Cat) => !i.notWorking) else alive;
    assert kept == Filter(all, Wanted(ranks, working)) by {
      if working {
        FilterFilter(all, inClan, (i: Cat) => !i.notWorking, Wanted(ranks, working));
      } else {
        FilterSame(all, inClan, Wanted(ranks, working));
      }
    }
    assert forall c :: c in kept <==>
      c in all && c.rank in ranks && c.aliveInClan && (working ==> !c.notWorking) by {
      forall c ensures c in kept <==>
        c in all && c.rank in ranks && c.aliveInClan && (working ==> !c.notWorking) {
        FilterMember(all, Wanted(ranks, working), c);
      }
    }
    if sort then
      SortByCorrect(kept, Moons, true);
      assert forall c :: c in SortBy(kept, Moons, true) <==> c in multiset(kept);
      assert forall m :: Filter(SortBy(kept, Moons, true), KeyIs(Moons, m)) == Filter(kept, KeyIs(Moons, m)) by {
        forall m ensures Filter(SortBy(kept, Moons, true), KeyIs(Moons, m)) == Filter(kept, KeyIs(Moons, m)) {
          SortByStable(kept, Moons, true, m);
        }
      }
      SortBy(kept, Moons, true)
    else kept
  }

  /** The test of find_alive_cats_with_rank: a listed rank, alive in the
      Clan, and working when only working cats are asked for. */
  function Wanted(ranks: seq<Rank>, working: bool): Cat -> bool
  {
    (c: Cat) => c.rank in ranks && c.aliveInClan && (working ==> !c.notWorking)
  }

  /** Counts the registered cats that are alive in the Clan. */
  method GetLivingClanCatCount(all: seq<Cat>) returns (count: nat)
    ensures count == Count(all, (c: Cat) => c.aliveInClan)
    ensures count <= |all|
  {
    var alive := (c: Cat) => c.aliveInClan;
    count := 0;
    for i := 0 to |all|
      invariant count == |Filter(all[..i], alive)|
    {
      assert all[..i + 1] == all[..i] + [all[i]];
      FilterAppend(all[..i], [all[i]], alive);
      if !all[i].aliveInClan {
        continue;
      }
      count := count + 1;
    }
    assert all[..|all|] == all;
  }

  // ---------------------------------------------------------------------------
  // get_cats_same_age
  // ---------------------------------------------------------------------------

  /** The age test as written: both bounds are `<=`, so only cats at least
      `ageRange` moons YOUNGER than `cat` pass. */
  predicate SameAgeAsWritten(cat: Cat, other: Cat, ageRange: int)
  {
    other.moons <= cat.moons + ageRange && other.moons <= cat.moons - ageRange
  }

  /** The age test the docstring describes: within `ageRange` moons. */
  predicate SameAge(cat: Cat, other: Cat, ageRange: int)
  {
    cat.moons - ageRange <= other.moons <= cat.moons + ageRange
  }

  predicate AgeTest(intended: bool, cat: Cat, other: Cat, ageRange: int)
  {
    if intended then SameAge(cat, other, ageRange) else SameAgeAsWritten(cat, other, ageRange)
  }

  /** Pairs (a, b) of the relation mean `b` is a key of `a.relationships`. */
  type Relations = set<(CatId, CatId)>

  /** Cats returned for `cat`: alive, not `cat`, already related, of an age
      that passes the test. */
  predicate Returned(intended: bool, cat: Cat, rel: Relations, ageRange: int, other: Cat)
  {
    other.aliveInClan && other.id != cat.id && (cat.id, other.id) in rel
    && AgeTest(intended, cat, other, ageRange)
  }

  /** Cats of `cats` returned for `cat`, in order: exactly those that pass. */
  function SameAgeCats(intended: bool, cat: Cat, rel: Relations, ageRange: int, cats: seq<Cat>): (r: seq<Cat>)
    ensures forall o :: o in r ==> o in cats && Returned(intended, cat, rel, ageRange, o)
    ensures forall o :: o in cats && Returned(intended, cat, rel, ageRange, o) ==> o in r
    ensures |r| <= |cats|
  {
    if cats == [] then []
    else
      var o := cats[|cats| - 1];
      SameAgeCats(intended, cat, rel, ageRange, cats[..|cats| - 1])
      + if Returned(intended, cat, rel, ageRange, o) then [o] else []
  }

  /** The relationships created for the alive cats of `cats` that `cat` had
      none with: one each way. */
  function Introduced(cat: Cat, rel: Relations, cats: seq<Cat>): (r: Relations)
    ensures forall p :: p in r ==> p.0 == cat.id || p.1 == cat.id
    ensures forall o :: o in cats && Stranger(cat, rel, o) ==>
      (cat.id, o.id) in r && (o.id, cat.id) in r
    ensures forall p :: p in r ==>
      (exists o :: o in cats && Stranger(cat, rel, o) && (p == (cat.id, o.id) || p == (o.id, cat.id)))
  {
    if cats == [] then {}
    else
      var init := cats[..|cats| - 1];
      var o := cats[|cats| - 1];
      assert cats == init + [o];
      Introduced(cat, rel, init)
      + if Stranger(cat, rel, o) then {(cat.id, o.id), (o.id, cat.id)} else {}
  }

  /** A cat of the Clan, other than `cat`, that `cat` has no relationship
      with yet. */
  predicate Stranger(cat: Cat, rel: Relations, o: Cat)
  {
    o.aliveInClan && o.id != cat.id && (cat.id, o.id) !in rel
  }

  /** `get_cats_same_age`: walks the registry; a cat with no relationship to
      `cat` gets one (both ways) and is skipped this time; the others are
      returned when they pass the age test (`intended` selects the test the
      docstring describes instead of the one written). */
  method GetCatsSameAge(all: seq<Cat>, cat: Cat, ageRange: int, rel: Relations, intended: bool)
    returns (cats: seq<Cat>, rel': Relations)
    requires DistinctIds(all)
    ensures cats == SameAgeCats(intended, cat, rel, ageRange, all)
    ensures rel' == rel + Introduced(cat, rel, all)
  {
    cats := [];
    rel' := rel;
    for i := 0 to |all|
      invariant cats == SameAgeCats(intended, cat, rel, ageRange, all[..i])
      invariant rel' == rel + Introduced(cat, rel, all[..i])
      invariant forall j :: i <= j < |all| && all[j].id != cat.id ==>
                  ((cat.id, all[j].id) in rel' <==> (cat.id, all[j].id) in rel)
    {
      var other := all[i];
      assert all[..i + 1][..i] == all[..i];
      if !other.aliveInClan {
        continue;
      }
      if other.id == cat.id {
        continue;
      }
      if (cat.id, other.id) !in rel' {
        rel' := rel' + {(cat.id, other.id)};
        if (other.id, cat.id) !in rel' {
          rel' := rel' + {(other.id, cat.id)};
        }
        continue;
      }
      if AgeTest(intended, cat, other, ageRange) {
        cats := cats + [other];
      }
    }
    assert all[..|all|] == all;
  }

  /** Whatever the age test, the result never holds `cat` itself, a cat not
      alive in the Clan, or a cat it was not already related to. */
  lemma SameAgeOnlyRelatedLiving(all: seq<Cat>, cat: Cat, ageRange: int, rel: Relations, intended: bool, o: Cat)
    requires o in SameAgeCats(intended, cat, rel, ageRange, all)
    ensures o in all && o.aliveInClan && o.id != cat.id && (cat.id, o.id) in rel
  {
  }

  /** As written, a related cat of exactly the same age is never returned
      (for a positive range), although the docstring's test accepts it. */
  lemma SameAgeAsWrittenMissesTwin(cat: Cat, twin: Cat, rel: Relations)
    requires twin.moons == cat.moons && twin.aliveInClan && twin.id != cat.id
    requires (cat.id, twin.id) in rel
    ensures SameAgeCats(false, cat, rel, 10, [twin]) == []
    ensures SameAgeCats(true, cat, rel, 10, [twin]) == [twin]
  {
  }

  /** The intended test is symmetric in the two cats' ages and accepts
      exactly the cats within `ageRange` moons. */
  lemma SameAgeSymmetric(a: Cat, b: Cat, ageRange: int)
    ensures SameAge(a, b, ageRange) <==> SameAge(b, a, ageRange)
    ensures SameAge(a, b, ageRange) <==> -ageRange <= a.moons - b.moons <= ageRange
  {
  }
}
