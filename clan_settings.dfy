/** The Clan's settings table (scripts/clan_package/settings/clan_settings.py):
    the current values (`clan_settings`), the cycle of values each setting
    may be switched through (`setting_lists`), and the operations that read,
    set, switch, reset and load them. */
module ClanSettings {
  import opened Common

  /** A setting value as it appears in the display table or a save file. */
  datatype Value = Bool(b: bool) | Text(s: string) | Items(items: seq<Value>)

  /** One entry of a settings category in the display table: a plain flag, or
      a list whose third item is the default flag. */
  datatype Declared = Flag(b: bool) | Described(fields: seq<Value>)

  /** The shape setting_lists' comprehension needs (`val[2]`, `not val[2]`). */
  predicate WellDeclared(d: Declared)
  {
    d.Described? ==> |d.fields| > 2 && d.fields[2].Bool?
  }

  /** The default flag of a declared setting. */
  function DefaultFlag(d: Declared): bool
    requires WellDeclared(d)
  {
    match d
    case Flag(b) => b
    case Described(fields) => fields[2].b
  }

  /** What the reset stores for a declared setting: the table entry itself. */
  function Stored(d: Declared): Value
  {
    match d
    case Flag(b) => Bool(b)
    case Described(fields) => Items(fields)
  }

  /** The switch cycle setting_lists gives a declared setting:
      `[default, not default]`. */
  function Cycle(d: Declared): (r: seq<Value>)
    requires WellDeclared(d)
    ensures |r| == 2 && r[0] != r[1] && NoDup(r)
    ensures r[0] == Bool(DefaultFlag(d)) && r[1] == Bool(!DefaultFlag(d))
  {
    [Bool(DefaultFlag(d)), Bool(!DefaultFlag(d))]
  }

  /** Only a plain flag's stored value lies on its own switch cycle: an entry
      kept as a list cannot be switched. */
  lemma StoredOnCycle(d: Declared)
    requires WellDeclared(d)
    ensures Stored(d) in Cycle(d) <==> d.Flag?
  {
  }

  function StoredCategory(cat: map<string, Declared>): map<string, Value>
  {
    map k | k in cat :: Stored(cat[k])
  }

  /** The values the reset writes from the categories, taken in order (a later
      category overrides an earlier one). */
  function Defaults(cats: seq<map<string, Declared>>): map<string, Value>
  {
    if cats == [] then map[] else Defaults(cats[..|cats| - 1]) + StoredCategory(cats[|cats| - 1])
  }

  /** A setting has a default exactly when some category declares it, and its
      default is the entry of the last category that does. */
  lemma {:induction false} DefaultsLookup(cats: seq<map<string, Declared>>, k: string)
    ensures k in Defaults(cats) <==> exists i :: 0 <= i < |cats| && k in cats[i]
    ensures forall i :: 0 <= i < |cats| && k in cats[i] && (forall j :: i < j < |cats| ==> k !in cats[j])
                        ==> k in Defaults(cats) && Defaults(cats)[k] == Stored(cats[i][k])
  {
    if cats != [] {
      var front := cats[..|cats| - 1];
      DefaultsLookup(front, k);
      assert forall i :: 0 <= i < |front| ==> front[i] == cats[i];
      if k !in cats[|cats| - 1] {
        assert forall i :: 0 <= i < |cats| && k in cats[i] ==> i < |front|;
      }
    }
  }

  /** setting_lists as the module builds it: a two-value cycle per declared
      setting, a later category overriding an earlier one. */
  function InitialLists(cats: seq<map<string, Declared>>): (r: map<string, seq<Value>>)
    requires forall i, k :: 0 <= i < |cats| && k in cats[i] ==> WellDeclared(cats[i][k])
    ensures r.Keys == Defaults(cats).Keys
    ensures forall k :: k in r ==> |r[k]| == 2 && NoDup(r[k])
  {
    if cats == [] then map[]
    else
      var last := cats[|cats| - 1];
      InitialLists(cats[..|cats| - 1]) + map k | k in last :: Cycle(last[k])
  }

  /** The first value of each "other" setting. */
  function Firsts(other: map<string, seq<Value>>): (r: map<string, Value>)
    requires forall s :: s in other ==> |other[s]| > 0
    ensures r.Keys == other.Keys
    ensures forall s :: s in other ==> r[s] == other[s][0]
  {
    map s | s in other :: other[s][0]
  }

  /** The values after a reset: every declared setting at its default, then
      every "other" setting at the first value of its list. */
  function ResetValues(cats: seq<map<string, Declared>>, other: map<string, seq<Value>>): (r: map<string, Value>)
    requires forall s :: s in other ==> |other[s]| > 0
    ensures r.Keys == Defaults(cats).Keys + other.Keys
    ensures forall s :: s in other ==> r[s] == other[s][0]
    ensures forall k :: k in Defaults(cats) && k !in other ==> r[k] == Defaults(cats)[k]
  {
    Defaults(cats) + Firsts(other)
  }

  /** The value one step to the right of `cur` in `list`, wrapping round. */
  function Next(list: seq<Value>, cur: Value): (r: Value)
    requires cur in list
    ensures r in list
  {
    list[(IndexOf(list, cur) + 1) % |list|]
  }

  /** `n` switches in a row. */
  function Switches(list: seq<Value>, cur: Value, n: nat): (r: Value)
    requires cur in list
    ensures r in list
  {
    if n == 0 then cur else Next(list, Switches(list, cur, n - 1))
  }

  lemma IndexOfDistinct(list: seq<Value>, j: nat)
    requires NoDup(list) && j < |list|
    ensures IndexOf(list, list[j]) == j
  {
  }

  /** In a list without repeats, each switch moves one place to the right,
      from the last place back to the first. */
  lemma {:induction false} SwitchesAdvance(list: seq<Value>, cur: Value, n: nat)
    requires NoDup(list) && cur in list && n <= |list|
    ensures var a := IndexOf(list, cur);
            IndexOf(list, Switches(list, cur, n)) == if a + n < |list| then a + n else a + n - |list|
  {
    if n > 0 {
      SwitchesAdvance(list, cur, n - 1);
      var p := Switches(list, cur, n - 1);
      NextAt(list, IndexOf(list, p));
    }
  }

  /** The switch from place `j`, without the remainder. */
  lemma NextAt(list: seq<Value>, j: nat)
    requires NoDup(list) && j < |list|
    ensures var k := if j + 1 == |list| then 0 else j + 1;
            Next(list, list[j]) == list[k] && IndexOf(list, list[k]) == k
  {
    IndexOfDistinct(list, j);
    var k := if j + 1 == |list| then 0 else j + 1;
    WrapSucc(j, |list|);
    assert Next(list, list[j]) == list[(j + 1) % |list|];
    IndexOfDistinct(list, k);
  }

  lemma WrapSucc(j: nat, n: nat)
    requires j < n
    ensures (j + 1) % n == if j + 1 == n then 0 else j + 1
  {
  }

  /** Switching a setting as many times as its list is long brings it back. */
  lemma SwitchFullCircle(list: seq<Value>, cur: Value)
    requires NoDup(list) && cur in list
    ensures Switches(list, cur, |list|) == cur
  {
    SwitchesAdvance(list, cur, |list|);
    var r := Switches(list, cur, |list|);
    assert list[IndexOf(list, r)] == r;
  }

  /** On a boolean cycle one switch negates the flag and two restore it. */
  lemma SwitchFlag(d: bool, x: bool)
    ensures Next([Bool(d), Bool(!d)], Bool(x)) == Bool(!x)
    ensures Switches([Bool(d), Bool(!d)], Bool(x), 2) == Bool(x)
  {
    var list := [Bool(d), Bool(!d)];
    assert Bool(x) in list;
    assert NoDup(list);
    SwitchFullCircle(list, Bool(x));
  }

  /** A save file as parsed: its keys in file order, without repeats. */
  predicate DistinctKeys(ps: seq<(string, Value)>)
  {
    forall i, j :: 0 <= i < j < |ps| ==> ps[i].0 != ps[j].0
  }

  function ToMap(ps: seq<(string, Value)>): (r: map<string, Value>)
    ensures forall i :: 0 <= i < |ps| ==> ps[i].0 in r
  {
    if ps == [] then map[] else ToMap(ps[..|ps| - 1])[ps[|ps| - 1].0 := ps[|ps| - 1].1]
  }

  /** The renaming pass of load_clan_settings over the pairs `ps`, in file
      order: a key with a newer name has its value written under the newer
      name, and is then removed. */
  function Converted(start: map<string, Value>, ps: seq<(string, Value)>, conversion: map<string, string>): map<string, Value>
  {
    if ps == [] then start
    else
      var m := Converted(start, ps[..|ps| - 1], conversion);
      var (k, v) := ps[|ps| - 1];
      if k in conversion then m[conversion[k] := v] - {k} else m
  }

  /** A key that is neither renamed nor the new name of any key keeps what it
      had. */
  lemma {:induction false} ConvertedKeeps(start: map<string, Value>, ps: seq<(string, Value)>, conversion: map<string, string>, x: string)
    requires x !in conversion
    requires forall j :: 0 <= j < |ps| && ps[j].0 in conversion ==> conversion[ps[j].0] != x
    ensures x in Converted(start, ps, conversion) <==> x in start
    ensures x in start ==> Converted(start, ps, conversion)[x] == start[x]
  {
    if ps != [] {
      ConvertedKeeps(start, ps[..|ps| - 1], conversion, x);
    }
  }

  /** A renamed key's value ends up under its new name, provided no other
      pair is keyed or renamed to that name. */
  lemma {:induction false} ConvertedRenames(start: map<string, Value>, ps: seq<(string, Value)>, conversion: map<string, string>, i: nat)
    requires i < |ps| && ps[i].0 in conversion
    requires forall j :: 0 <= j < |ps| && j != i ==> ps[j].0 != conversion[ps[i].0]
    requires forall j :: 0 <= j < |ps| && j != i && ps[j].0 in conversion ==> conversion[ps[j].0] != conversion[ps[i].0]
    requires ps[i].0 != conversion[ps[i].0]
    ensures conversion[ps[i].0] in Converted(start, ps, conversion)
    ensures Converted(start, ps, conversion)[conversion[ps[i].0]] == ps[i].1
  {
    var last := |ps| - 1;
    if i < last {
      ConvertedRenames(start, ps[..last], conversion, i);
    }
  }

  /** The copying pass of load_clan_settings: every known setting that the
      converted file names takes the file's value; no other key is added. */
  function CopyKnown(values: map<string, Value>, loaded: map<string, Value>): (r: map<string, Value>)
    ensures r.Keys == values.Keys
    ensures forall k :: k in values && k in loaded ==> r[k] == loaded[k]
    ensures forall k :: k in values && k !in loaded ==> r[k] == values[k]
  {
    map k | k in values :: if k in loaded then loaded[k] else values[k]
  }

  /** The module state: the display table it is built from (read-only) and the
      two dictionaries the functions update. */
  class Settings {
    /** The five declared categories (general, role, relation,
        freshkill_tactics, clan_focus), in that order. */
    const categories: seq<map<string, Declared>>
    /** The "other" category: each setting with its list of values. */
    const other: map<string, seq<Value>>
    /** Old save keys and the keys that replaced them. */
    const conversion: map<string, string>
    /** `clan_settings`. */
    var values: map<string, Value>
    /** `setting_lists`. */
    var lists: map<string, seq<Value>>

    /** The table shape the module's import-time code needs. */
    predicate TableOk()
    {
      (forall i, k :: 0 <= i < |categories| && k in categories[i] ==> WellDeclared(categories[i][k]))
      && (forall s :: s in other ==> |other[s]| > 0)
    }

    /** Module initialisation: setting_lists from the declared categories,
        then a reset. */
    constructor (categories: seq<map<string, Declared>>, other: map<string, seq<Value>>, conversion: map<string, string>)
      requires forall i, k :: 0 <= i < |categories| && k in categories[i] ==> WellDeclared(categories[i][k])
      requires forall s :: s in other ==> |other[s]| > 0
      ensures this.categories == categories && this.other == other && this.conversion == conversion
      ensures values == ResetValues(categories, other)
      ensures lists == InitialLists(categories) + other
    {
      this.categories := categories;
      this.other := other;
      this.conversion := conversion;
      values := map[];
      lists := InitialLists(categories);
      new;
      Reset();
    }

    /** get_clan_setting: the stored value, or `default` for an unknown name. */
    function Get(name: string, default: Value): (r: Value)
      reads this
      ensures name in values ==> r == values[name]
      ensures name !in values ==> r == default
    {
      if name in values then values[name] else default
    }

    /** set_clan_setting: refused (ValueError, `ok` false, nothing changes)
        for an "other" setting; otherwise exactly that key is set. */
    method Set(name: string, value: Value) returns (ok: bool)
      modifies this
      ensures ok <==> name !in other
      ensures ok ==> values == old(values)[name := value]
      ensures !ok ==> values == old(values)
      ensures lists == old(lists)
    {
      if name in other {
        return false;
      }
      values := values[name := value];
      ok := true;
    }

    /** switch_clan_setting: the setting moves one step to the right on its
        list, wrapping round. The source raises (KeyError or ValueError, `ok`
        false, nothing changes) when the setting has no list or no value, or
        its value is not on its list. */
    method Switch(name: string) returns (ok: bool)
      modifies this
      ensures lists == old(lists)
      ensures ok <==> name in old(lists) && name in old(values) && old(values)[name] in old(lists)[name]
      ensures ok ==> values == old(values)[name := Next(old(lists)[name], old(values)[name])]
      ensures !ok ==> values == old(values)
    {
      if name !in lists || name !in values || values[name] !in lists[name] {
        return false;
      }
      var list := lists[name];
      var listIndex := IndexOf(list, values[name]);
      listIndex := (listIndex + 1) % |list|;
      values := values[name := list[listIndex]];
      ok := true;
    }

    /** reset_loaded_clan_settings: the declared categories in order, then
        every "other" setting at the first value of its list, which also
        becomes its switch list. */
    method Reset()
      requires TableOk()
      modifies this
      ensures values == ResetValues(categories, other)
      ensures lists == old(lists) + other
    {
      var v: map<string, Value> := map[];
      var j := 0;
      while j < |categories|
        invariant 0 <= j <= |categories|
        invariant v == Defaults(categories[..j])
      {
        assert categories[..j + 1][..j] == categories[..j];
        v := v + StoredCategory(categories[j]);
        j := j + 1;
      }
      assert categories[..|categories|] == categories;
      values := v + Firsts(other);
      lists := lists + other;
    }

    /** load_clan_settings with the parsed save file, if there is one: a
        reset, then the renaming pass, then the copy of known settings. */
    method Load(file: Option<seq<(string, Value)>>)
      requires TableOk()
      requires file.Some? ==> DistinctKeys(file.value)
      modifies this
      ensures file.None? ==> values == ResetValues(categories, other)
      ensures file.Some? ==>
                values == CopyKnown(ResetValues(categories, other), Converted(ToMap(file.value), file.value, conversion))
      ensures lists == old(lists) + other
    {
      Reset();
      if file.Some? {
        var ps := file.value;
        var loaded := ToMap(ps);
        var j := 0;
        while j < |ps|
          invariant 0 <= j <= |ps|
          invariant loaded == Converted(ToMap(ps), ps[..j], conversion)
        {
          assert ps[..j + 1][..j] == ps[..j];
          var (key, value) := ps[j];
          if key in conversion {
            loaded := loaded[conversion[key] := value] - {key};
          }
          j := j + 1;
        }
        assert ps[..|ps|] == ps;
        values := CopyKnown(values, loaded);
      }
    }
  }
}
