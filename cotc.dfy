/** Relations between the player's Clan and the other Clans, and the Clan's
    reputation with outsiders (scripts/clan_package/cotc.py). */
module Cotc {
  import opened Common

  /** One neighbouring Clan: its name and its relations value (0..30). */
  datatype OtherClan = OtherClan(name: string, relations: int)

  /** `x` clamped into `[lo, hi]` the way the source does it: first the upper
      bound, then the lower one. */
  function Clamp(x: int, lo: int, hi: int): (r: int)
    requires lo <= hi
    ensures lo <= r <= hi
    ensures lo <= x <= hi ==> r == x
    ensures x > hi ==> r == hi
    ensures x < lo ==> r == lo
  {
    if x > hi then hi else if x < lo then lo else x
  }

  /** Index of the first Clan of `s` called `name`, or -1. */
  function FirstNamedIndex(s: seq<OtherClan>, name: string): (k: int)
    ensures -1 <= k < |s|
    ensures k >= 0 ==> s[k].name == name
    ensures forall j :: 0 <= j < |s| && (k == -1 || j < k) ==> s[j].name != name
  {
    if s == [] then -1
    else if s[0].name == name then 0
    else
      var k := FirstNamedIndex(s[1..], name);
      if k == -1 then -1 else k + 1
  }

  /** Index of the last Clan of `s` called `name`, or -1. */
  function LastNamedIndex(s: seq<OtherClan>, name: string): (k: int)
    ensures -1 <= k < |s|
    ensures k >= 0 ==> s[k].name == name
    ensures forall j :: k < j < |s| ==> s[j].name != name
  {
    if s == [] then -1
    else if s[|s| - 1].name == name then |s| - 1
    else LastNamedIndex(s[..|s| - 1], name)
  }

  /** The first Clan of `s` called `name`, if any. */
  function FirstNamed(s: seq<OtherClan>, name: string): (r: Option<OtherClan>)
    ensures r.Some? ==> r.value in s && r.value.name == name
    ensures r.None? <==> forall i :: 0 <= i < |s| ==> s[i].name != name
    ensures r.Some? ==> exists k :: 0 <= k < |s| && s[k] == r.value && forall j :: 0 <= j < k ==> s[j].name != name
  {
    var k := FirstNamedIndex(s, name);
    if k == -1 then None else Some(s[k])
  }

  /** The last Clan of `s` called `name`, if any. */
  function LastNamed(s: seq<OtherClan>, name: string): (r: Option<OtherClan>)
    ensures r.Some? ==> r.value in s && r.value.name == name
    ensures r.None? <==> forall i :: 0 <= i < |s| ==> s[i].name != name
    ensures r.Some? ==> exists k :: 0 <= k < |s| && s[k] == r.value && forall j :: k < j < |s| ==> s[j].name != name
  {
    var k := LastNamedIndex(s, name);
    if k == -1 then None else Some(s[k])
  }

  /** Converts a relations value into "ally", "neutral" or "hostile"
      (get_other_clan_relation). */
  function GetOtherClanRelation(relation: int): (r: string)
    ensures r == "ally" <==> relation >= 17
    ensures r == "neutral" <==> 8 <= relation <= 16
    ensures r == "hostile" <==> relation <= 7
  {
    if relation >= 17 then "ally"
    else if 7 < relation < 17 then "neutral"
    else "hostile"
  }

  /** Position of a relation label on the hostile < neutral < ally scale. */
  function LabelLevel(tag: string): int
  {
    if tag == "hostile" then 0 else if tag == "neutral" then 1 else 2
  }

  /** Better relations never give a worse label. */
  lemma RelationLabelMonotone(a: int, b: int)
    requires a <= b
    ensures LabelLevel(GetOtherClanRelation(a)) <= LabelLevel(GetOtherClanRelation(b))
  {
  }

  /** The part of the game's Clan object that this file reads and writes. */
  class Clan {
    var reputation: int
    var otherClans: seq<OtherClan>
    /** `war.get("at_war", False)` and `war["enemy"]`. */
    var atWar: bool
    var enemy: string

    constructor (reputation: int, otherClans: seq<OtherClan>, atWar: bool, enemy: string)
      ensures this.reputation == reputation && this.otherClans == otherClans
      ensures this.atWar == atWar && this.enemy == enemy
    {
      this.reputation := reputation;
      this.otherClans := otherClans;
      this.atWar := atWar;
      this.enemy := enemy;
    }

    /** The enemy Clan while a war is going on: the LAST other Clan whose name
        is the enemy's (the source's loop keeps overwriting its match). */
    function GetWarringClan(): (r: Option<OtherClan>)
      reads this
      ensures !atWar ==> r.None?
      ensures r.Some? ==> r.value in otherClans && r.value.name == enemy
      ensures atWar ==> r == LastNamed(otherClans, enemy)
    {
      if atWar then LastNamed(otherClans, enemy) else None
    }

    /** The first other Clan called `name`, or None. */
    function GetOtherClan(name: string): (r: Option<OtherClan>)
      reads this
      ensures r.Some? ==> r.value in otherClans && r.value.name == name
      ensures r.None? <==> forall i :: 0 <= i < |otherClans| ==> otherClans[i].name != name
      ensures r.Some? ==> exists k :: 0 <= k < |otherClans| && otherClans[k] == r.value
                                      && forall j :: 0 <= j < k ==> otherClans[j].name != name
    {
      FirstNamed(otherClans, name)
    }

    /** Adds `difference` to the relations with `other`, clamped to 0..30.
        `list.index` raises when `other` is not one of the Clan's neighbours. */
    method ChangeClanRelations(other: OtherClan, difference: int)
      requires other in otherClans
      modifies this
      ensures var y := IndexOf(old(otherClans), other);
              otherClans == old(otherClans)[y := other.(relations := Clamp(other.relations + difference, 0, 30))]
      ensures reputation == old(reputation) && atWar == old(atWar) && enemy == old(enemy)
    {
      var y := IndexOf(otherClans, other);
      var clanRelations := otherClans[y].relations;
      clanRelations := clanRelations + difference;
      if clanRelations > 30 {
        clanRelations := 30;
      } else if clanRelations < 0 {
        clanRelations := 0;
      }
      otherClans := otherClans[y := otherClans[y].(relations := clanRelations)];
    }

    /** Adds `difference` to the reputation, clamped to 0..100. */
    method ChangeClanReputation(difference: int)
      modifies this
      ensures reputation == Clamp(old(reputation) + difference, 0, 100)
      ensures otherClans == old(otherClans) && atWar == old(atWar) && enemy == old(enemy)
    {
      reputation := reputation + difference;
      if reputation < 0 {
        reputation := 0;
      } else if reputation > 100 {
        reputation := 100;
      }
    }
  }

  /** Changing the relations with one Clan changes no other Clan, and keeps every
      relations value that was in range in range. */
  lemma ChangeRelationsOnlyTouchesOne(s: seq<OtherClan>, other: OtherClan, difference: int)
    requires other in s
    requires forall i :: 0 <= i < |s| ==> 0 <= s[i].relations <= 30
    ensures var y := IndexOf(s, other);
            var s' := s[y := other.(relations := Clamp(other.relations + difference, 0, 30))];
            |s'| == |s|
            && (forall i :: 0 <= i < |s| && i != y ==> s'[i] == s[i])
            && (forall i :: 0 <= i < |s'| ==> 0 <= s'[i].relations <= 30)
            && s'[y].name == other.name
  {
  }
}
