/** The cofounder list that the page edits: adding a cofounder with default
    values, changing one field of the cofounders with a given id, and
    removing the cofounders with a given id while more than one is listed.
    Each edit is a pure function from the old list to the new one; the page
    state in module Page assigns their results. */
module Roster {
  import opened Equity

  // ---------------------------------------------------------------------
  // Ids: `(n).toString()` of a positive integer
  // ---------------------------------------------------------------------

  function DigitChar(d: nat): (c: char)
    requires d < 10
    ensures '0' <= c <= '9'
    ensures c as int - '0' as int == d
  {
    (d + '0' as int) as char
  }

  /** The decimal numeral of n, as JavaScript's `Number.prototype.toString` gives it. */
  function NatToString(n: nat): (s: string)
    ensures 1 <= |s|
    ensures n < 10 <==> |s| == 1
    ensures forall k :: 0 <= k < |s| ==> '0' <= s[k] <= '9'
    ensures s[0] == '0' ==> n == 0
  {
    if n < 10 then [DigitChar(n)] else NatToString(n / 10) + [DigitChar(n % 10)]
  }

  /** The number a decimal numeral denotes, read left to right. */
  function NumeralValue(s: string): nat
  {
    if s == [] then 0
    else
      var c := s[|s| - 1];
      10 * NumeralValue(s[..|s| - 1]) + (if '0' <= c <= '9' then c as int - '0' as int else 0)
  }

  /** The numeral of n denotes n. */
  lemma {:induction false} NatToStringDenotes(n: nat)
    ensures NumeralValue(NatToString(n)) == n
  {
    var s := NatToString(n);
    if n < 10 {
      assert s[..|s| - 1] == [];
    } else {
      assert s[..|s| - 1] == NatToString(n / 10);
      NatToStringDenotes(n / 10);
    }
  }

  /** Different numbers have different numerals. */
  lemma NatToStringInjective(m: nat, n: nat)
    requires NatToString(m) == NatToString(n)
    ensures m == n
  {
    NatToStringDenotes(m);
    NatToStringDenotes(n);
  }

  // ---------------------------------------------------------------------
  // addCofounder
  // ---------------------------------------------------------------------

  /** The page's default record, used by the initial state and by
      `addCofounder`: 40 hours a week at 120000 a year, no cash, no idea
      value, risk multiplier 1. */
  function DefaultCofounder(id: string): Cofounder
  {
    Cofounder(id, "Cofounder " + id, 0.0, 40.0, 120000.0, 0.0, 1.0)
  }

  /** The record `addCofounder` appends as the n-th cofounder. */
  function NewCofounder(n: nat): (cf: Cofounder)
    ensures cf.id == NatToString(n) && cf.name == "Cofounder " + NatToString(n)
    ensures NumeralValue(cf.id) == n
    ensures cf.cashContribution == 0.0 && cf.timeContribution == 40.0 && cf.marketSalary == 120000.0
    ensures cf.ideaValue == 0.0 && cf.riskMultiplier == 1.0
  {
    NatToStringDenotes(n);
    DefaultCofounder(NatToString(n))
  }

  /** The list after `addCofounder`: one more record, with the defaults and the
      id "length + 1", after the untouched old ones. */
  function Added(cofounders: seq<Cofounder>): (r: seq<Cofounder>)
    ensures |r| == |cofounders| + 1
    ensures r[..|cofounders|] == cofounders
    ensures r[|cofounders|] == NewCofounder(|cofounders| + 1)
  {
    cofounders + [NewCofounder(|cofounders| + 1)]
  }

  /** The initial state's lone cofounder "1" over twelve months holds 120000
      slices, 100 percent and the whole valuation. */
  lemma LoneDefaultCofounder(companyValuation: real)
    ensures var results := CalculateEquity([NewCofounder(1)], companyValuation, 12.0);
            |results| == 1 &&
            results[0].slices == 120000.0 &&
            results[0].percentage == 100.0 &&
            results[0].dollarValue == companyValuation
  {
    assert TotalSlices([NewCofounder(1)], 12.0) == 120000.0;
  }

  // ---------------------------------------------------------------------
  // updateCofounder
  // ---------------------------------------------------------------------

  /** The keys of a cofounder record. */
  datatype Field = Id | Name | CashContribution | TimeContribution | MarketSalary | IdeaValue | RiskMultiplier

  /** A field's value: the text fields hold strings, the others numbers. */
  datatype FieldValue = Text(text: string) | Number(number: real)

  /** The value kind a field holds. */
  predicate Fits(field: Field, value: FieldValue)
  {
    if field == Id || field == Name then value.Text? else value.Number?
  }

  /** Reads a field by key. */
  function Get(cf: Cofounder, field: Field): (v: FieldValue)
    ensures Fits(field, v)
  {
    match field
    case Id => Text(cf.id)
    case Name => Text(cf.name)
    case CashContribution => Number(cf.cashContribution)
    case TimeContribution => Number(cf.timeContribution)
    case MarketSalary => Number(cf.marketSalary)
    case IdeaValue => Number(cf.ideaValue)
    case RiskMultiplier => Number(cf.riskMultiplier)
  }

  /** `{ ...cf, [field]: value }`: the named field takes the value, every other
      field keeps its old one. */
  function WithField(cf: Cofounder, field: Field, value: FieldValue): (r: Cofounder)
    requires Fits(field, value)
    ensures Get(r, field) == value
    ensures forall f :: f != field ==> Get(r, f) == Get(cf, f)
  {
    match field
    case Id => cf.(id := value.text)
    case Name => cf.(name := value.text)
    case CashContribution => cf.(cashContribution := value.number)
    case TimeContribution => cf.(timeContribution := value.number)
    case MarketSalary => cf.(marketSalary := value.number)
    case IdeaValue => cf.(ideaValue := value.number)
    case RiskMultiplier => cf.(riskMultiplier := value.number)
  }

  /** Two records that agree on every field are the same record. */
  lemma FieldsDetermineRecord(a: Cofounder, b: Cofounder)
    requires forall f :: Get(a, f) == Get(b, f)
    ensures a == b
  {
    assert Get(a, Id) == Get(b, Id);
    assert Get(a, Name) == Get(b, Name);
    assert Get(a, CashContribution) == Get(b, CashContribution);
    assert Get(a, TimeContribution) == Get(b, TimeContribution);
    assert Get(a, MarketSalary) == Get(b, MarketSalary);
    assert Get(a, IdeaValue) == Get(b, IdeaValue);
    assert Get(a, RiskMultiplier) == Get(b, RiskMultiplier);
  }

  /** The list after `updateCofounder`: same length and order; records with a
      different id are untouched, records with the id get the new field value. */
  function Updated(cofounders: seq<Cofounder>, id: string, field: Field, value: FieldValue): (r: seq<Cofounder>)
    requires Fits(field, value)
    ensures |r| == |cofounders|
    ensures forall i :: 0 <= i < |r| ==>
              if cofounders[i].id == id then r[i] == WithField(cofounders[i], field, value)
              else r[i] == cofounders[i]
  {
    if cofounders == [] then []
    else
      [if cofounders[0].id == id then WithField(cofounders[0], field, value) else cofounders[0]]
      + Updated(cofounders[1..], id, field, value)
  }

  /** The ids of a list, in order. */
  function Ids(cofounders: seq<Cofounder>): (ids: seq<string>)
    ensures |ids| == |cofounders|
    ensures forall i :: 0 <= i < |ids| ==> ids[i] == cofounders[i].id
  {
    if cofounders == [] then [] else [cofounders[0].id] + Ids(cofounders[1..])
  }

  /** Editing any field but the id leaves the ids as they were. */
  lemma UpdateKeepsIds(cofounders: seq<Cofounder>, id: string, field: Field, value: FieldValue)
    requires Fits(field, value) && field != Id
    ensures Ids(Updated(cofounders, id, field, value)) == Ids(cofounders)
  {
    var r := Updated(cofounders, id, field, value);
    forall i | 0 <= i < |r|
      ensures r[i].id == cofounders[i].id
    {
      assert Get(r[i], Id) == Get(cofounders[i], Id);
    }
  }

  /** Setting a field to the value it already has changes nothing. */
  lemma UpdateWithSameValue(cofounders: seq<Cofounder>, id: string, field: Field, value: FieldValue)
    requires Fits(field, value)
    requires forall cf :: cf in cofounders && cf.id == id ==> Get(cf, field) == value
    ensures Updated(cofounders, id, field, value) == cofounders
  {
    var r := Updated(cofounders, id, field, value);
    forall i | 0 <= i < |r|
      ensures r[i] == cofounders[i]
    {
      if cofounders[i].id == id {
        assert cofounders[i] in cofounders;
        FieldsDetermineRecord(r[i], cofounders[i]);
      }
    }
  }

  // ---------------------------------------------------------------------
  // removeCofounder
  // ---------------------------------------------------------------------

  /** `filter(cf => cf.id !== id)`: every record with another id, in order. */
  function Filtered(cofounders: seq<Cofounder>, id: string): (r: seq<Cofounder>)
    ensures |r| <= |cofounders|
    ensures forall cf :: cf in r <==> cf in cofounders && cf.id != id
  {
    if cofounders == [] then []
    else if cofounders[0].id != id then [cofounders[0]] + Filtered(cofounders[1..], id)
    else Filtered(cofounders[1..], id)
  }

  /** How many records carry the id. */
  function CountId(cofounders: seq<Cofounder>, id: string): (n: nat)
    ensures n <= |cofounders|
  {
    if cofounders == [] then 0
    else (if cofounders[0].id == id then 1 else 0) + CountId(cofounders[1..], id)
  }

  /** Filtering drops exactly the records that carry the id. */
  lemma {:induction false} FilteredLength(cofounders: seq<Cofounder>, id: string)
    ensures |Filtered(cofounders, id)| == |cofounders| - CountId(cofounders, id)
  {
    if cofounders != [] {
      FilteredLength(cofounders[1..], id);
    }
  }

  /** Filtering keeps order: it works piecewise over a concatenation. */
  lemma {:induction false} FilteredAppend(xs: seq<Cofounder>, ys: seq<Cofounder>, id: string)
    ensures Filtered(xs + ys, id) == Filtered(xs, id) + Filtered(ys, id)
  {
    if xs == [] {
      assert xs + ys == ys;
    } else {
      assert (xs + ys)[1..] == xs[1..] + ys;
      FilteredAppend(xs[1..], ys, id);
    }
  }

  /** The list after `removeCofounder`: unchanged when it holds at most one
      record, otherwise filtered. */
  function Removed(cofounders: seq<Cofounder>, id: string): (r: seq<Cofounder>)
    ensures |cofounders| <= 1 ==> r == cofounders
    ensures |cofounders| > 1 ==> forall cf :: cf in r <==> cf in cofounders && cf.id != id
  {
    if |cofounders| > 1 then Filtered(cofounders, id) else cofounders
  }

  // ---------------------------------------------------------------------
  // Uniqueness of ids and the "at least one cofounder" guard
  // ---------------------------------------------------------------------

  predicate UniqueIds(cofounders: seq<Cofounder>)
  {
    forall i, j :: 0 <= i < j < |cofounders| ==> cofounders[i].id != cofounders[j].id
  }

  /** With unique ids an id occurs at most once. */
  lemma {:induction false} UniqueCountAtMostOne(cofounders: seq<Cofounder>, id: string)
    requires UniqueIds(cofounders)
    ensures CountId(cofounders, id) <= 1
  {
    if cofounders != [] {
      UniqueCountAtMostOne(cofounders[1..], id);
      if cofounders[0].id == id {
        NoOtherWithId(cofounders[1..], id);
      }
    }
  }

  lemma {:induction false} NoOtherWithId(cofounders: seq<Cofounder>, id: string)
    requires forall cf :: cf in cofounders ==> cf.id != id
    ensures CountId(cofounders, id) == 0
  {
    if cofounders != [] {
      assert cofounders[0] in cofounders;
      NoOtherWithId(cofounders[1..], id);
    }
  }

  /** While the ids are unique, removing never empties a non-empty list and
      removes at most one record. */
  lemma RemoveKeepsOneWhenIdsUnique(cofounders: seq<Cofounder>, id: string)
    requires UniqueIds(cofounders) && |cofounders| >= 1
    ensures |Removed(cofounders, id)| >= 1
    ensures |Removed(cofounders, id)| >= |cofounders| - 1
  {
    if |cofounders| > 1 {
      FilteredLength(cofounders, id);
      UniqueCountAtMostOne(cofounders, id);
    }
  }

  /** Removal empties a list exactly when it holds two or more records and
      every one of them carries the removed id; unique ids rule that out. */
  lemma RemovedEmptyIff(cofounders: seq<Cofounder>, id: string)
    requires |cofounders| >= 1
    ensures |Removed(cofounders, id)| == 0 <==>
              |cofounders| > 1 && forall cf :: cf in cofounders ==> cf.id == id
  {
    var r := Removed(cofounders, id);
    if |r| > 0 && |cofounders| > 1 {
      assert r[0] in r;
    }
  }

  /** Removing keeps the ids unique. */
  lemma {:induction false} FilteredKeepsUnique(cofounders: seq<Cofounder>, id: string)
    requires UniqueIds(cofounders)
    ensures UniqueIds(Filtered(cofounders, id))
  {
    if cofounders != [] {
      FilteredKeepsUnique(cofounders[1..], id);
      var rest := Filtered(cofounders[1..], id);
      if cofounders[0].id != id {
        var r := [cofounders[0]] + rest;
        forall j | 1 <= j < |r|
          ensures r[0].id != r[j].id
        {
          assert r[j] in rest;
          var k :| 0 <= k < |cofounders[1..]| && cofounders[1..][k] == r[j];
          assert cofounders[k + 1] == r[j];
        }
      }
    }
  }

  /** Adding keeps the ids unique exactly when "length + 1" is not already in use. */
  lemma AddKeepsUniqueIff(cofounders: seq<Cofounder>)
    requires UniqueIds(cofounders)
    ensures UniqueIds(Added(cofounders)) <==> NatToString(|cofounders| + 1) !in Ids(cofounders)
  {
    var n := |cofounders|;
    var newId := NatToString(n + 1);
    if newId in Ids(cofounders) {
      AddReusingIdDuplicates(cofounders);
    } else {
      AddWithUnusedIdKeepsUnique(cofounders);
    }
  }

  lemma AddReusingIdDuplicates(cofounders: seq<Cofounder>)
    requires NatToString(|cofounders| + 1) in Ids(cofounders)
    ensures !UniqueIds(Added(cofounders))
  {
    var r := Added(cofounders);
    var n := |cofounders|;
    var ids := Ids(cofounders);
    var i :| 0 <= i < n && ids[i] == NatToString(n + 1);
    assert r[i] == cofounders[i];
    assert r[i].id == r[n].id;
  }

  lemma AddWithUnusedIdKeepsUnique(cofounders: seq<Cofounder>)
    requires UniqueIds(cofounders)
    requires NatToString(|cofounders| + 1) !in Ids(cofounders)
    ensures UniqueIds(Added(cofounders))
  {
    var r := Added(cofounders);
    var n := |cofounders|;
    var ids := Ids(cofounders);
    forall i, j | 0 <= i < j < |r|
      ensures r[i].id != r[j].id
    {
      assert r[i] == cofounders[i];
      if j == n {
        assert r[i].id == ids[i];
      } else {
        assert r[j] == cofounders[j];
      }
    }
  }

  /** The ids a list has when nothing was ever removed: "1", "2", ..., in order. */
  predicate NumberedInOrder(cofounders: seq<Cofounder>)
  {
    forall i :: 0 <= i < |cofounders| ==> cofounders[i].id == NatToString(i + 1)
  }

  /** Numbered ids are unique. */
  lemma NumberedIdsAreUnique(cofounders: seq<Cofounder>)
    requires NumberedInOrder(cofounders)
    ensures UniqueIds(cofounders)
  {
    forall i, j | 0 <= i < j < |cofounders|
      ensures cofounders[i].id != cofounders[j].id
    {
      if cofounders[i].id == cofounders[j].id {
        NatToStringInjective(i + 1, j + 1);
      }
    }
  }

  /** Adding to a numbered list keeps it numbered (and so its ids unique). */
  lemma AddKeepsNumbered(cofounders: seq<Cofounder>)
    requires NumberedInOrder(cofounders)
    ensures NumberedInOrder(Added(cofounders))
    ensures UniqueIds(Added(cofounders))
  {
    NumberedIdsAreUnique(Added(cofounders));
  }

  /** Ids are reused after a removal and removal then empties the list:
      ["1"] -> add -> ["1","2"] -> remove "1" -> ["2"] -> add -> ["2","2"]
      -> remove "2" -> []. */
  lemma IdReuseEmptiesList()
    ensures var start := [NewCofounder(1)];
            var twice := Added(Removed(Added(start), "1"));
            Ids(twice) == ["2", "2"] &&
            !UniqueIds(twice) &&
            Removed(twice, "2") == []
  {
    var start := [NewCofounder(1)];
    assert NatToString(1) == "1";
    assert NatToString(2) == "2";
    var one := Added(start);
    assert one == [NewCofounder(1), NewCofounder(2)];
    assert one[1..] == [NewCofounder(2)];
    assert Filtered(one, "1") == [NewCofounder(2)];
    var twice := Added(Removed(one, "1"));
    assert twice == [NewCofounder(2), NewCofounder(2)];
    assert twice[1..] == [NewCofounder(2)];
    assert Filtered([NewCofounder(2)], "2") == [];
    assert Ids(twice)[0] == Ids(twice)[1] == "2";
  }
}
