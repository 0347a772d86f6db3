/** Eligibility checks that decide whether an event or thought may fire in the
    current game state (scripts/events_module/event_filters.py): event
    frequency, location, season, game-mode and leader-life tags, reputation and
    relation bands, exclusionary "-" lists and personality compatibility. */
module EventFilters {
  import opened Common
  import opened Strings
  import Cotc

  // ---------------------------------------------------------------------------
  // Frequencies
  // ---------------------------------------------------------------------------

  /** get_frequency with its `randint(1, 10)` roll passed in. */
  function GetFrequency(roll: int): (f: int)
    requires 1 <= roll <= 10
    ensures 1 <= f <= 4
  {
    if roll <= 4 then 4
    else if roll <= 7 then 3
    else if roll <= 9 then 2
    else 1
  }

  /** The number of rolls in 1..10 that give frequency `f`. */
  function RollsGiving(f: int, from: int): nat
    requires 1 <= from <= 11
    decreases 11 - from
  {
    if from == 11 then 0
    else (if GetFrequency(from) == f then 1 else 0) + RollsGiving(f, from + 1)
  }

  /** "In a span of 10 moons, in how many moons should this sort of event
      appear?": frequency f comes up on exactly f of the ten rolls. */
  lemma FrequencyIsShareOfTenRolls(f: int)
    requires 1 <= f <= 4
    ensures RollsGiving(f, 1) == f
  {
    assert RollsGiving(f, 10) == (if f == 1 then 1 else 0);
    assert RollsGiving(f, 8) == (if f == 2 then 2 else if f == 1 then 1 else 0);
    assert RollsGiving(f, 5) == (if f == 3 then 3 else if f <= 2 then f else 0);
  }

  function MaxOf(s: seq<int>): (m: int)
    requires |s| > 0
    ensures m in s && forall x :: x in s ==> x <= m
  {
    if |s| == 1 then s[0]
    else
      var r := MaxOf(s[1..]);
      assert s == [s[0]] + s[1..];
      if s[0] >= r then s[0] else r
  }

  function MinOf(s: seq<int>): (m: int)
    requires |s| > 0
    ensures m in s && forall x :: x in s ==> m <= x
  {
    if |s| == 1 then s[0]
    else
      var r := MinOf(s[1..]);
      assert s == [s[0]] + s[1..];
      if s[0] <= r then s[0] else r
  }

  /** find_new_frequency: one above the highest used frequency if that is a free
      frequency, else one below the lowest if that is free, else 4. `used` holds
      the elements of the source's set; the source indexes the sorted list, so
      an empty set raises IndexError there. */
  function FindNewFrequency(used: seq<int>): (r: int)
    requires |used| > 0
    ensures 1 <= r <= 4
    ensures r == MaxOf(used) + 1 || r == MinOf(used) - 1 || r == 4
    // one above the highest is tried first, then one below the lowest
    ensures 1 <= MaxOf(used) + 1 <= 4 && MaxOf(used) + 1 !in used ==> r == MaxOf(used) + 1
    ensures (!(1 <= MaxOf(used) + 1 <= 4 && MaxOf(used) + 1 !in used)
             && 1 <= MinOf(used) - 1 <= 4 && MinOf(used) - 1 !in used) ==> r == MinOf(used) - 1
    ensures r != 4 ==> r !in used
  {
    var newFreq := MaxOf(used) + 1;
    if 1 <= newFreq <= 4 && newFreq !in used then newFreq
    else
      var lower := MinOf(used) - 1;
      if 1 <= lower <= 4 && lower !in used then lower
      else 4
  }

  /** When the used frequencies are a gap-free block of 1..4 that leaves some
      frequency free, the new frequency is an unused one. */
  lemma {:induction false} NewFrequencyIsUnused(used: seq<int>)
    requires |used| > 0
    requires forall x :: x in used ==> 1 <= x <= 4
    requires forall x :: MinOf(used) <= x <= MaxOf(used) ==> x in used
    requires exists x :: 1 <= x <= 4 && x !in used
    ensures FindNewFrequency(used) !in used
  {
    var hi, lo := MaxOf(used), MinOf(used);
    var x :| 1 <= x <= 4 && x !in used;
    if hi < 4 {
      assert hi + 1 !in used;
    } else {
      assert x < lo;
      assert lo - 1 !in used;
    }
  }

  /** The fallback can hand out a frequency that is already in use. */
  lemma FallbackCanReuse()
    ensures FindNewFrequency([1, 4]) == 4
  {
    assert MaxOf([1, 4]) == 4;
    assert MinOf([1, 4]) == 1;
  }

  // ---------------------------------------------------------------------------
  // Exclusionary lists
  // ---------------------------------------------------------------------------

  /** _check_for_exclusionary_value: only the first element is looked at; the
      list is exclusionary when that element starts with "-". */
  function CheckForExclusionaryValue(values: seq<string>): (r: bool)
    ensures r <==> |values| > 0 && |values[0]| > 0 && values[0][0] == '-'
  {
    if values == [] then false
    else StartsWith(values[0], "-")
  }

  /** Elements after the first never change the verdict. */
  lemma ExclusionaryLooksAtFirstOnly(v: string, rest: seq<string>)
    ensures CheckForExclusionaryValue([v] + rest) == CheckForExclusionaryValue([v])
  {
  }

  // ---------------------------------------------------------------------------
  // Seasons
  // ---------------------------------------------------------------------------

  function StripDashes(xs: seq<string>): (r: seq<string>)
    ensures |r| == |xs|
    ensures forall i :: 0 <= i < |xs| ==> r[i] == RemoveChar(xs[i], '-')
  {
    if xs == [] then [] else [RemoveChar(xs[0], '-')] + StripDashes(xs[1..])
  }

  /** event_for_season as written: an exclusionary list has EVERY "-" removed
      from its entries, including the one inside "leaf-bare". */
  function EventForSeason(seasons: seq<string>, currentSeason: string): (r: bool)
    ensures seasons == [] || "any" in seasons ==> r
    ensures seasons != [] && "any" !in seasons ==>
              var excl := CheckForExclusionaryValue(seasons);
              r == ((Lower(currentSeason) in (if excl then StripDashes(seasons) else seasons)) != excl)
  {
    if seasons == [] then true
    else if "any" in seasons then true
    else
      var isExclusionary := CheckForExclusionaryValue(seasons);
      var names := if isExclusionary then StripDashes(seasons) else seasons;
      if Lower(currentSeason) in names then !isExclusionary
      else isExclusionary
  }

  /** An entry with its leading "-" removed, if it has one. */
  function DropLeadingDash(x: string): (r: string)
    ensures StartsWith(x, "-") ==> [x[0]] + r == x
    ensures !StartsWith(x, "-") ==> r == x
  {
    if StartsWith(x, "-") then x[1..] else x
  }

  function DropLeadingDashes(xs: seq<string>): (r: seq<string>)
    ensures |r| == |xs|
    ensures forall i :: 0 <= i < |xs| ==> r[i] == DropLeadingDash(xs[i])
  {
    if xs == [] then [] else [DropLeadingDash(xs[0])] + DropLeadingDashes(xs[1..])
  }

  /** event_for_season as evidently intended: only the marker "-" is removed, so
      "-leaf-bare" excludes the season "leaf-bare". */
  function EventForSeasonIntended(seasons: seq<string>, currentSeason: string): bool
  {
    if seasons == [] || "any" in seasons then true
    else
      var isExclusionary := CheckForExclusionaryValue(seasons);
      var names := if isExclusionary then DropLeadingDashes(seasons) else seasons;
      (Lower(currentSeason) in names) != isExclusionary
  }

  /** The intended filter: an inclusive list admits exactly the listed seasons,
      and an exclusionary list of "-season" entries admits exactly the seasons
      it does not name. */
  lemma SeasonIntendedMeaning(seasons: seq<string>, currentSeason: string)
    requires seasons != [] && "any" !in seasons
    ensures !CheckForExclusionaryValue(seasons) ==>
              (EventForSeasonIntended(seasons, currentSeason) <==> Lower(currentSeason) in seasons)
    ensures (forall i :: 0 <= i < |seasons| ==> StartsWith(seasons[i], "-")) ==>
              (EventForSeasonIntended(seasons, currentSeason) <==>
                 forall i :: 0 <= i < |seasons| ==> "-" + Lower(currentSeason) != seasons[i])
  {
    if forall i :: 0 <= i < |seasons| ==> StartsWith(seasons[i], "-") {
      var names := DropLeadingDashes(seasons);
      var cur := Lower(currentSeason);
      forall i | 0 <= i < |seasons|
        ensures (names[i] == cur) <==> ("-" + cur == seasons[i])
      {
        assert [seasons[i][0]] + names[i] == seasons[i];
        if "-" + cur == seasons[i] {
          assert names[i] == seasons[i][1..];
        }
      }
    }
  }

  /** Where no entry has a "-" after its first character, the code as written
      agrees with the intended filter. */
  lemma SeasonAgreesWithoutInnerDash(seasons: seq<string>, currentSeason: string)
    requires forall i, k :: 0 <= i < |seasons| && 0 < k < |seasons[i]| ==> seasons[i][k] != '-'
    requires forall i :: 0 <= i < |seasons| ==> StartsWith(seasons[i], "-") == CheckForExclusionaryValue(seasons)
    ensures EventForSeason(seasons, currentSeason) == EventForSeasonIntended(seasons, currentSeason)
  {
    if seasons != [] && "any" !in seasons && CheckForExclusionaryValue(seasons) {
      forall i | 0 <= i < |seasons|
        ensures RemoveChar(seasons[i], '-') == DropLeadingDash(seasons[i])
      {
        NoDashRemoved(seasons[i][1..]);
        assert seasons[i] == ['-'] + seasons[i][1..];
        assert RemoveChar(seasons[i], '-') == RemoveChar(seasons[i][1..], '-');
      }
      assert StripDashes(seasons) == DropLeadingDashes(seasons);
    }
  }

  lemma {:induction false} NoDashRemoved(x: string)
    requires forall k :: 0 <= k < |x| ==> x[k] != '-'
    ensures RemoveChar(x, '-') == x
  {
    if x != [] {
      NoDashRemoved(x[1..]);
      assert x == [x[0]] + x[1..];
    }
  }

  /** Excluding a season whose name holds a "-" does not keep an event out of
      that season: the code compares, say, "leaf-bare" with "leafbare". */
  lemma DashedSeasonExclusionIgnored(season: string, currentSeason: string)
    requires '-' in season && Lower(currentSeason) == season
    ensures EventForSeason(["-" + season], currentSeason)
    ensures !EventForSeasonIntended(["-" + season], currentSeason)
  {
    var entry := "-" + season;
    assert StripDashes([entry]) == [RemoveChar(entry, '-')];
    assert RemoveChar(entry, '-') != season;
    assert DropLeadingDashes([entry]) == [DropLeadingDash(entry)];
    assert entry[1..] == season;
  }

  /** The case that shows it: "-leaf-bare" in leaf-bare. */
  lemma LeafBareExclusionIgnored()
    ensures EventForSeason(["-leaf-bare"], "Leaf-bare")
    ensures !EventForSeasonIntended(["-leaf-bare"], "Leaf-bare")
  {
    assert "-" + "leaf-bare" == "-leaf-bare";
    assert Lower("Leaf-bare") == "leaf-bare" by {
      LowerLeafBare();
    }
    DashedSeasonExclusionIgnored("leaf-bare", "Leaf-bare");
  }

  lemma LowerLeafBare()
    ensures "leaf-bare"[4] == '-'
    ensures Lower("Leaf-bare") == "leaf-bare"
  {
    var l := Lower("Leaf-bare");
    assert l[0] == 'l';
    assert l[1..] == "eaf-bare";
  }

  // ---------------------------------------------------------------------------
  // Locations
  // ---------------------------------------------------------------------------

  /** The Clan's location as event_for_location reads it. An empty
      `overrideBiome` stands for an unset (falsy) override. */
  datatype ClanPlace = ClanPlace(biome: string, overrideBiome: string, campBg: string)

  /** The biome and camps a location entry asks for: "biome" or
      "biome:campA_campB". */
  datatype LocationReq = LocationReq(biome: string, camps: seq<string>)

  function ParseLocation(place: string): (r: LocationReq)
    ensures ':' !in place ==> r == LocationReq(place, ["any"])
    ensures ':' in place ==> ':' !in r.biome
    ensures ':' in place ==>
      r.biome == UpToChar(place, ':') &&
      r.camps == SplitOn(UpToChar(place[|UpToChar(place, ':')| + 1..], ':'), '_')
  {
    if ':' in place then
      var info := SplitOn(place, ':');
      SplitOnHead(place, ':');
      SplitOnHead(place[|UpToChar(place, ':')| + 1..], ':');
      LocationReq(info[0], SplitOn(info[1], '_'))
    else LocationReq(place, ["any"])
  }

  /** One location entry fits the Clan. */
  predicate LocationMatches(place: string, excl: bool, clan: ClanPlace)
  {
    var entry := if excl then RemoveChar(place, '-') else place;
    var req := ParseLocation(entry);
    var reqBiome, reqCamps := req.biome, req.camps;
    BiomeFits(reqBiome, clan) && ("any" in reqCamps || clan.campBg in reqCamps)
  }

  /** The biome test: the override when one is set, else the lower-cased biome. */
  predicate BiomeFits(reqBiome: string, clan: ClanPlace)
  {
    if |clan.overrideBiome| > 0 then reqBiome == clan.overrideBiome
    else reqBiome == Lower(clan.biome)
  }

  /** The loop of event_for_location from entry `i` on. */
  function LocationScan(locations: seq<string>, i: nat, excl: bool, clan: ClanPlace): (r: bool)
    requires i <= |locations|
    ensures r == ((exists k :: i <= k < |locations| && LocationMatches(locations[k], excl, clan)) != excl)
    decreases |locations| - i
  {
    if i == |locations| then excl
    else if LocationMatches(locations[i], excl, clan) then !excl
    else LocationScan(locations, i + 1, excl, clan)
  }

  /** event_for_location: "any" admits; without a Clan nothing is admitted;
      otherwise the first matching entry gives `not exclusionary`, and no match
      gives `exclusionary`. */
  function EventForLocation(locations: seq<string>, clan: Option<ClanPlace>): (r: bool)
    ensures "any" in locations ==> r
    ensures "any" !in locations && clan.None? ==> !r
    ensures "any" !in locations && clan.Some? ==>
              var excl := CheckForExclusionaryValue(locations);
              r == ((exists k :: 0 <= k < |locations| && LocationMatches(locations[k], excl, clan.value)) != excl)
  {
    if "any" in locations then true
    else if clan.None? then false
    else LocationScan(locations, 0, CheckForExclusionaryValue(locations), clan.value)
  }

  lemma {:induction false} UpToCharPrefix(a: string, c: char, rest: string)
    requires c !in a
    ensures UpToChar(a + [c] + rest, c) == a
  {
    if a != [] {
      UpToCharPrefix(a[1..], c, rest);
      assert a + [c] + rest == [a[0]] + (a[1..] + [c] + rest);
    }
  }

  /** "biome:camp" asks for that biome and that one camp. */
  lemma ParseBiomeCamp(b: string, camp: string)
    requires ':' !in b && ':' !in camp && '_' !in camp
    ensures ParseLocation(b + ":" + camp) == LocationReq(b, [camp])
  {
    var place := b + ":" + camp;
    assert place == b + [':'] + camp;
    assert place[|b|] == ':';
    UpToCharPrefix(b, ':', camp);
    assert place[|b| + 1..] == camp;
  }

  /** An entry "biome:camp" fits when the biome does and the camp is the
      Clan's camp or "any". */
  lemma CampEntryMatches(b: string, camp: string, clan: ClanPlace)
    requires ':' !in b && ':' !in camp && '_' !in camp
    ensures LocationMatches(b + ":" + camp, false, clan) ==
            (BiomeFits(b, clan) && (camp == "any" || camp == clan.campBg))
  {
    ParseBiomeCamp(b, camp);
  }

  /** In an exclusionary list, "-entry" is read as "entry". */
  lemma DashedEntryMatches(x: string, clan: ClanPlace)
    requires '-' !in x
    ensures LocationMatches("-" + x, true, clan) == LocationMatches(x, false, clan)
  {
    NoDashRemoved(x);
    assert ("-" + x)[1..] == x;
  }

  /** The names the location tests use: the Clan lives in `home` (no biome
      override) at camp `camp`; `away` and `far` are other biomes and `other`
      is another camp. None is "any" and none holds ':', '_' or '-'. */
  predicate TestShape(home: string, away: string, far: string, camp: string, other: string,
                      clan: ClanPlace)
  {
    clan.overrideBiome == [] && Lower(clan.biome) == home && clan.campBg == camp &&
    home != away && home != far && camp != other &&
    Plain(home) && Plain(away) && Plain(far) && Plain(camp) && Plain(other)
  }

  predicate Plain(w: string)
  {
    |w| > 0 && ':' !in w && '_' !in w && '-' !in w && w != "any"
  }

  /** An entry without a camp part fits exactly when its biome does. */
  lemma PlainEntryMatches(b: string, clan: ClanPlace)
    requires ':' !in b
    ensures LocationMatches(b, false, clan) == BiomeFits(b, clan)
  {
  }

  /** Text holding a ':' is never the word "any". */
  lemma ColonNotAny(w: string)
    requires ':' in w
    ensures w != "any"
  {
    assert ':' !in "any";
  }

  /** An inclusive list of one entry admits when that entry fits. */
  lemma InclusiveOne(x: string, clan: ClanPlace)
    requires |x| > 0 && x[0] != '-' && x != "any"
    ensures EventForLocation([x], Some(clan)) == LocationMatches(x, false, clan)
  {
    assert [x][0] == x;
  }

  /** An inclusive list of two entries admits when one of them fits. */
  lemma InclusiveTwo(x: string, y: string, clan: ClanPlace)
    requires |x| > 0 && x[0] != '-' && x != "any" && y != "any"
    ensures EventForLocation([x, y], Some(clan)) ==
            (LocationMatches(x, false, clan) || LocationMatches(y, false, clan))
  {
    var locations := [x, y];
    assert !CheckForExclusionaryValue(locations);
    assert locations[0] == x && locations[1] == y;
    assert LocationScan(locations, 1, false, clan) == LocationMatches(y, false, clan);
  }

  /** An inclusive list of three entries admits when one of them fits. */
  lemma InclusiveThree(x: string, y: string, z: string, clan: ClanPlace)
    requires |x| > 0 && x[0] != '-' && x != "any" && y != "any" && z != "any"
    ensures EventForLocation([x, y, z], Some(clan)) ==
            (LocationMatches(x, false, clan) || LocationMatches(y, false, clan) ||
             LocationMatches(z, false, clan))
  {
    var locations := [x, y, z];
    assert !CheckForExclusionaryValue(locations);
    assert locations[0] == x && locations[1] == y && locations[2] == z;
    assert LocationScan(locations, 2, false, clan) == LocationMatches(z, false, clan);
    assert LocationScan(locations, 1, false, clan) ==
           (LocationMatches(y, false, clan) || LocationMatches(z, false, clan));
  }

  /** An exclusionary list "-x" admits unless `x` fits. */
  lemma ExclusiveOne(x: string, clan: ClanPlace)
    requires '-' !in x
    ensures EventForLocation(["-" + x], Some(clan)) == !LocationMatches(x, false, clan)
  {
    var locations := ["-" + x];
    assert locations[0][0] == '-' && locations[0] != "any";
    DashedEntryMatches(x, clan);
  }

  /** An exclusionary list "-x", "-y" admits unless `x` or `y` fits. */
  lemma ExclusiveTwo(x: string, y: string, clan: ClanPlace)
    requires '-' !in x && '-' !in y
    ensures EventForLocation(["-" + x, "-" + y], Some(clan)) ==
            !(LocationMatches(x, false, clan) || LocationMatches(y, false, clan))
  {
    var locations := ["-" + x, "-" + y];
    assert locations[0][0] == '-' && locations[1][0] == '-';
    assert locations[0] != "any" && locations[1] != "any";
    assert "any" !in locations;
    assert CheckForExclusionaryValue(locations);
    DashedEntryMatches(x, clan);
    DashedEntryMatches(y, clan);
    assert LocationScan(locations, 1, true, clan) == !LocationMatches(y, false, clan);
  }

  /** The inclusive location tests, for any names of the tests' shape. */
  lemma LocationTestsInclusive(home: string, away: string, far: string, camp: string,
                               other: string, clan: ClanPlace)
    requires TestShape(home, away, far, camp, other, clan)
    ensures EventForLocation([home], Some(clan))
    ensures EventForLocation([home + ":" + camp], Some(clan))
    ensures !EventForLocation([away], Some(clan))
    ensures !EventForLocation([home + ":" + other], Some(clan))
    ensures EventForLocation([away + ":" + other, home], Some(clan))
    ensures !EventForLocation([away + ":" + other, far, home + ":" + other], Some(clan))
  {
    var homeCamp, homeOther, awayOther := home + ":" + camp, home + ":" + other, away + ":" + other;
    assert homeCamp[|home|] == ':' && homeCamp[0] == home[0];
    assert homeOther[|home|] == ':' && homeOther[0] == home[0];
    assert awayOther[|away|] == ':' && awayOther[0] == away[0];
    ColonNotAny(homeCamp);
    ColonNotAny(homeOther);
    ColonNotAny(awayOther);
    PlainEntryMatches(home, clan);
    PlainEntryMatches(away, clan);
    PlainEntryMatches(far, clan);
    CampEntryMatches(home, camp, clan);
    CampEntryMatches(home, other, clan);
    CampEntryMatches(away, other, clan);
    InclusiveOne(home, clan);
    InclusiveOne(homeCamp, clan);
    InclusiveOne(away, clan);
    InclusiveOne(homeOther, clan);
    InclusiveTwo(awayOther, home, clan);
    InclusiveThree(awayOther, far, homeOther, clan);
  }

  /** The exclusionary location tests, for any names of the tests' shape. */
  lemma LocationTestsExclusive(home: string, away: string, far: string, camp: string,
                               other: string, clan: ClanPlace)
    requires TestShape(home, away, far, camp, other, clan)
    ensures EventForLocation(["-" + far], Some(clan))
    ensures EventForLocation(["-" + far, "-" + (home + ":" + other)], Some(clan))
    ensures !EventForLocation(["-" + far, "-" + home], Some(clan))
    ensures !EventForLocation(["-" + far, "-" + (home + ":" + camp)], Some(clan))
  {
    var homeCamp, homeOther := home + ":" + camp, home + ":" + other;
    assert '-' !in homeCamp && '-' !in homeOther;
    PlainEntryMatches(home, clan);
    PlainEntryMatches(far, clan);
    CampEntryMatches(home, camp, clan);
    CampEntryMatches(home, other, clan);
    ExclusiveOne(far, clan);
    ExclusiveTwo(far, homeOther, clan);
    ExclusiveTwo(far, home, clan);
    ExclusiveTwo(far, homeCamp, clan);
  }

  /** The Clan of the location tests: biome "Forest", no override, camp
      "camp1". */
  const TestClan := ClanPlace("Forest", "", "camp1")

  lemma LowerForest()
    ensures Lower("Forest") == "forest"
  {
    var l := Lower("Forest");
    assert l[0] == 'f';
    assert l[1..] == "orest";
  }

  /** The names of the location tests have the shape the two lemmas above
      ask for. */
  lemma TestNamesFit()
    ensures TestShape("forest", "desert", "plains", "camp1", "camp2", TestClan)
  {
    LowerForest();
  }

  // ---------------------------------------------------------------------------
  // Game-mode and leader-life tags
  // ---------------------------------------------------------------------------

  const PossibleModes: seq<string> := ["classic", "expanded", "cruel_season"]

  /** The leader-life tags and the inclusive ranges of lives they need. */
  const LifeLookup: seq<(string, int, int)> :=
    [("some_lives", 4, 9), ("lives_remain", 2, 9), ("high_lives", 7, 9),
     ("mid_lives", 4, 6), ("low_lives", 1, 3)]

  function ModeScan(tags: seq<string>, mode: string, i: nat): (r: bool)
    requires i <= |PossibleModes|
    ensures r <==> forall k :: i <= k < |PossibleModes| && PossibleModes[k] in tags ==> PossibleModes[k] == mode
    decreases |PossibleModes| - i
  {
    if i == |PossibleModes| then true
    else if PossibleModes[i] in tags && mode != PossibleModes[i] then false
    else ModeScan(tags, mode, i + 1)
  }

  function LivesScan(tags: seq<string>, lives: int, i: nat): (r: bool)
    requires i <= |LifeLookup|
    ensures r <==> forall k :: i <= k < |LifeLookup| && LifeLookup[k].0 in tags ==>
                     LifeLookup[k].1 <= lives <= LifeLookup[k].2
    decreases |LifeLookup| - i
  {
    if i == |LifeLookup| then true
    else if LifeLookup[i].0 in tags && !(LifeLookup[i].1 <= lives <= LifeLookup[i].2) then false
    else LivesScan(tags, lives, i + 1)
  }

  /** The game-mode and leader-life part of event_for_tags: false when the tags
      reject the event; true lets the remaining checks of the source run.
      `isCat` says the cat argument has an ID, `isLeader` that it leads. */
  function EventForTagsModeAndLives(tags: seq<string>, mode: string, isCat: bool,
                                    isLeader: bool, leaderLives: int): (r: bool)
    ensures r <==>
      (forall k :: 0 <= k < |PossibleModes| && PossibleModes[k] in tags ==> PossibleModes[k] == mode)
      && (isCat && isLeader ==>
            forall k :: 0 <= k < |LifeLookup| && LifeLookup[k].0 in tags ==>
              LifeLookup[k].1 <= leaderLives <= LifeLookup[k].2)
  {
    if tags == [] then true
    else if !ModeScan(tags, mode, 0) then false
    else if isCat && isLeader then LivesScan(tags, leaderLives, 0)
    else true
  }

  /** The leader-life cases of the source's tests that admit the event. */
  lemma LeaderLifeAccepted()
    ensures EventForTagsModeAndLives(["some_lives", "lives_remain", "high_lives"], "classic", true, true, 9)
    ensures EventForTagsModeAndLives(["some_lives", "mid_lives", "lives_remain"], "classic", true, true, 5)
    ensures EventForTagsModeAndLives(["low_lives"], "classic", true, true, 1)
  {
    assert LifeLookup[3].0 == "mid_lives";
    assert LifeLookup[2].0 == "high_lives";
  }

  /** The leader-life cases of the source's tests that reject the event. */
  lemma LeaderLifeRejected()
    ensures !EventForTagsModeAndLives(["mid_lives", "low_lives"], "classic", true, true, 9)
    ensures !EventForTagsModeAndLives(["high_lives", "low_lives", "some_lives"], "classic", true, true, 3)
    ensures !EventForTagsModeAndLives(["expanded"], "classic", true, true, 9)
  {
    assert LifeLookup[3].0 == "mid_lives";
    assert LifeLookup[2].0 == "high_lives";
    assert PossibleModes[1] == "expanded";
  }

  // ---------------------------------------------------------------------------
  // Reputation and relation bands
  // ---------------------------------------------------------------------------

  /** event_for_reputation: hostile 0..30, neutral 31..70, welcoming 71 and up. */
  function EventForReputation(requiredRep: seq<string>, clanRep: int): (r: bool)
    ensures r <==> "any" in requiredRep
                   || ("hostile" in requiredRep && 0 <= clanRep <= 30)
                   || ("neutral" in requiredRep && 31 <= clanRep <= 70)
                   || ("welcoming" in requiredRep && 71 <= clanRep)
  {
    if "any" in requiredRep then true
    else if "hostile" in requiredRep && 0 <= clanRep <= 30 then true
    else if "neutral" in requiredRep && 31 <= clanRep <= 70 then true
    else if "welcoming" in requiredRep && 71 <= clanRep then true
    else false
  }

  /** The reputation bands cover every non-negative reputation, each with exactly
      one band. */
  lemma ReputationBandsPartition(rep: int)
    requires rep >= 0
    ensures EventForReputation(["hostile", "neutral", "welcoming"], rep)
    ensures EventForReputation(["hostile"], rep) ==
              (!EventForReputation(["neutral"], rep) && !EventForReputation(["welcoming"], rep))
    ensures EventForReputation(["neutral"], rep) ==
              (!EventForReputation(["hostile"], rep) && !EventForReputation(["welcoming"], rep))
  {
  }

  /** event_for_clan_relations: hostile 0..6, neutral 7..17, ally 18 and up. */
  function EventForClanRelations(requiredRel: seq<string>, currentRel: int): (r: bool)
    ensures r <==> "any" in requiredRel
                   || ("hostile" in requiredRel && 0 <= currentRel <= 6)
                   || ("neutral" in requiredRel && 7 <= currentRel <= 17)
                   || ("ally" in requiredRel && 18 <= currentRel)
  {
    if "any" in requiredRel then true
    else if "hostile" in requiredRel && 0 <= currentRel <= 6 then true
    else if "neutral" in requiredRel && 7 <= currentRel <= 17 then true
    else if "ally" in requiredRel && 18 <= currentRel then true
    else false
  }

  /** The relation bands here and the labels of get_other_clan_relation agree on
      every relations value in 0..30 except 7 and 17. */
  lemma RelationBandsMatchLabels(rel: int)
    requires 0 <= rel <= 30 && rel != 7 && rel != 17
    ensures EventForClanRelations([Cotc.GetOtherClanRelation(rel)], rel)
  {
  }

  /** At 7 and 17 the two files disagree: 7 is a "hostile" relation but passes
      only the "neutral" band, and 17 is an "ally" relation but passes only the
      "neutral" band. */
  lemma RelationBandsDisagreeAtEdges()
    ensures Cotc.GetOtherClanRelation(7) == "hostile" && !EventForClanRelations(["hostile"], 7)
    ensures Cotc.GetOtherClanRelation(17) == "ally" && !EventForClanRelations(["ally"], 17)
  {
    assert "hostile" !in ["ally"];
    assert "neutral" !in ["ally"];
    assert "neutral" !in ["hostile"];
  }

  // ---------------------------------------------------------------------------
  // Personality compatibility
  // ---------------------------------------------------------------------------

  /** The personality of a cat: its trait (None when unset) and four facets. */
  datatype Personality = Personality(traitName: Option<string>, lawfulness: int,
                                     sociability: int, aggression: int, stability: int)

  datatype Compatibility = Positive | Negative | Neutral

  function Abs(x: int): int { if x < 0 then -x else x }

  /** What one facet difference adds to the running total. */
  function FacetScore(diff: int): int
  {
    if diff <= 4 then 1 else if diff >= 6 then -1 else 0
  }

  function FacetTotal(diffs: seq<int>): (t: int)
    ensures -|diffs| <= t <= |diffs|
  {
    if diffs == [] then 0 else FacetScore(diffs[0]) + FacetTotal(diffs[1..])
  }

  function FacetDiffs(p1: Personality, p2: Personality): seq<int>
  {
    [Abs(p1.lawfulness - p2.lawfulness), Abs(p1.sociability - p2.sociability),
     Abs(p1.aggression - p2.aggression), Abs(p1.stability - p2.stability)]
  }

  /** The compatibility of two personalities: equal traits give positive (or
      neutral when both are unset); otherwise the facet total decides. */
  function CompatibilityOf(p1: Personality, p2: Personality): (c: Compatibility)
    ensures p1.traitName == p2.traitName ==> (c == Neutral <==> p1.traitName.None?)
    ensures p1.traitName == p2.traitName && p1.traitName.Some? ==> c == Positive
    ensures p1.traitName != p2.traitName ==>
              var total := FacetTotal(FacetDiffs(p1, p2));
              (c == Positive <==> total >= 2) && (c == Negative <==> total <= -2)
  {
    if p1.traitName == p2.traitName then
      if p1.traitName.None? then Neutral else Positive
    else
      var runningTotal := FacetTotal(FacetDiffs(p1, p2));
      if runningTotal >= 2 then Positive
      else if runningTotal <= -2 then Negative
      else Neutral
  }

  /** Compatibility does not depend on which cat is asked about first. */
  lemma CompatibilitySymmetric(p1: Personality, p2: Personality)
    ensures CompatibilityOf(p1, p2) == CompatibilityOf(p2, p1)
  {
    assert FacetDiffs(p1, p2) == FacetDiffs(p2, p1);
  }

  /** get_personality_compatibility: the running total is summed over the
      four facet differences, +1 for a difference of at most 4 and -1 for one
      of at least 6. */
  method GetPersonalityCompatibility(p1: Personality, p2: Personality) returns (c: Compatibility)
    ensures c == CompatibilityOf(p1, p2)
  {
    if p1.traitName == p2.traitName {
      if p1.traitName.None? {
        return Neutral;
      }
      return Positive;
    }
    var listOfDifferences := FacetDiffs(p1, p2);
    var runningTotal := 0;
    for i := 0 to |listOfDifferences|
      invariant runningTotal + FacetTotal(listOfDifferences[i..]) == FacetTotal(listOfDifferences)
    {
      var x := listOfDifferences[i];
      assert listOfDifferences[i..][1..] == listOfDifferences[i + 1..];
      if x <= 4 {
        runningTotal := runningTotal + 1;
      } else if x >= 6 {
        runningTotal := runningTotal - 1;
      }
    }
    if runningTotal >= 2 {
      return Positive;
    }
    if runningTotal <= -2 {
      return Negative;
    }
    return Neutral;
  }
}
