# Startup equity calculator — verified model

The calculator page splits a startup's equity among its cofounders by the
"Slicing Pie" method. Each cofounder record carries a cash contribution, a
weekly time commitment, the market salary given up, a claimed idea value and
a risk multiplier. `calculateEquity` converts each record to a slice count:

    (cash + hours/week * 52 * (horizon / 12) * salary / (52 * 40) + idea) * risk

It totals the slices in a `reduce` pass. A `map` pass then recomputes each
cofounder's slices and turns them into a percentage of the total. A total that
is not positive gives 0 percent. The dollar value is percentage / 100 times the
company valuation. The page also edits the cofounder list: add a cofounder with
default values, change one field of every cofounder with a given id, and
remove every cofounder with a given id while more than one is listed.

The project has three modules:

- `Equity` (equity.dfy): the record shapes and the calculation as functions
  over `seq<Cofounder>`. The `reduce` pass is a left fold with its own copy of
  the slice expression, as in the page. The lemmas cover four things:
  - the two passes agree;
  - the percentages sum to exactly 100 and the dollar values to the valuation;
  - the zero guard;
  - how the result responds to the valuation, the horizon and a risk multiplier.
- `Roster` (roster.dfy): the three list edits as functions from the old list
  to the new one, plus lemmas about ids.
- `Page` (page.dfy): the page state as a class. It holds `cofounders`,
  `companyValuation`, `timeHorizon` and `results`. Its handler methods assign
  those fields and state the new state in terms of the old one. Editing the
  list does not touch `results`, which are recomputed only when
  `CalculateEquity` is called.

All arithmetic is over `real`.

A new cofounder's id is "length + 1". Adding keeps the ids unique exactly
when that id is not already taken (`Roster.AddKeepsUniqueIff`), and after a
removal it can be taken, so an id can be reused. Removal drops every record
with the given id, and editing a field changes every record with the given
id (app/page.tsx:63-64): after ["2","2"] both cards change together.
Removal empties a list exactly when the list holds two or more records and
every record carries the removed id (`Roster.RemovedEmptyIff`); unique ids
rule that out, but duplicate ids alone do not empty it (["2","3","3"] keeps
records whichever id is removed). `Roster.IdReuseEmptiesList` follows the
sequence
["1"] → add → ["1","2"] → remove "1" → ["2"] → add → ["2","2"] → remove "2" → [].
It ends with an empty list even though the remover checks that length > 1.
The non-emptiness guarantee (`Roster.RemoveKeepsOneWhenIdsUnique`,
`Page.EquityPage.RemoveCofounder`) is therefore stated under unique ids.

Three places where what one would expect of the page and what the code does
differ. The model follows the code in each:

- The page means to keep at least one cofounder: `removeCofounder` only
  filters while `cofounders.length > 1` (app/page.tsx:69), and the Remove
  button is shown only while `cofounders.length > 1` (app/page.tsx:215). One
  would also expect each cofounder's id to be unique. Ids come from
  `(cofounders.length + 1).toString()` (app/page.tsx:50), so neither is
  guaranteed after a removal: the next add can reuse an id still in the list
  (see above).
- One would expect that raising one cofounder's risk multiplier lowers every
  other cofounder's share. In the code a cofounder with zero slices stays at
  0 percent whatever the total is. `Equity.RaisingRiskLowersOthers` is
  therefore stated for the cofounders whose percentage is positive, and for
  a raised cofounder with positive slices. Negative inputs are not rejected,
  and both excluded cases then go the other way: a partner with negative
  slices gains share as the total grows (-1 of 21 is more than -1 of 10),
  and a raised cofounder with negative slices shrinks the total, so every
  positive partner gains share (11 of 9 is more than 11 of 10).
- One would also expect the raised cofounder's own share to grow. When that
  cofounder holds all the slices (a lone cofounder, or one whose partners
  contribute nothing) the total grows by the same factor and the share stays
  at exactly 100 percent. `Equity.RaisingRiskRaisesShare` therefore requires
  the cofounder's slices to be positive and below the total, and
  `Equity.RaisingRiskSoleHolderStays` states the other case. The requires
  also excludes slices above the total, which happens when the partners hold
  negative slices (negative inputs are not rejected): there raising the
  multiplier lowers the share, for example from 200 to 133⅓ percent with
  slices 2, total 1 and k = 2.

## Model

| member | source | states |
|---|---|---|
| `Equity.HourlyRate` | app/page.tsx:80 | defined by its body: the salary over 52 * 40 hours; characterised by `Equity.FullTimeYearIsSalary` |
| `Equity.TimeSlices` | app/page.tsx:94-95 | defined by its body: hours/week * 52 * (horizon / 12) * hourly rate; characterised by `Equity.FullTimeYearIsSalary` and `Equity.TimeSlicesLinearInHorizon` |
| `Equity.Slices` | app/page.tsx:93-97 | defined by its body: (cash + time slices + idea) * risk, the map pass's expression; tied to the reduce pass by `Equity.AddSlicesAgrees` |
| `Equity.AddSlices` | app/page.tsx:76-89 | defined by its body: the reducer callback with its own copy of the slice expression; characterised by `Equity.AddSlicesAgrees` |
| `Equity.Reduce` | app/page.tsx:75-90 | defined by its body: the left fold of the reducer; characterised by `Equity.ReduceIsSum` |
| `Equity.TotalSlices` | app/page.tsx:75-90 | defined by its body: the fold from 0; characterised by `Equity.ReduceIsSum` and `Equity.ResultSlicesSumToTotal` |
| `Equity.Percentage` | app/page.tsx:99 | defined by its body: the guarded share in percent; characterised by `Equity.PercentageIsShare` and `Equity.ZeroGuard` |
| `Equity.DollarValue` | app/page.tsx:100 | defined by its body: percentage / 100 * valuation; characterised by `Equity.ValuationScaling` and `Equity.DollarValuesSumToValuation` |
| `Equity.ResultFor` | app/page.tsx:92-107 | defined by its body: the map callback building one result; characterised by `Equity.MapResults` and `Equity.CalculateEquity` |
| `Equity.MapResults` | app/page.tsx:92-108 | one result per cofounder, the i-th being the callback's result for the i-th cofounder |
| `Equity.CalculateEquity` | app/page.tsx:74-111 | exactly one result per cofounder, in input order, carrying the cofounder record unchanged, with that cofounder's slice count and dollarValue = percentage / 100 * valuation |
| `Equity.AddSlicesAgrees` | app/page.tsx:75-97 | the reducer's own copy of the slice expression adds exactly the map pass's slice count to the running total |
| `Equity.ReduceIsSum` | app/page.tsx:75-90 | the left fold from any start adds the plain sum of all slice counts to it |
| `Equity.MapSlicesSum` | app/page.tsx:92-108 | the mapped results' slices sum to the plain sum of the slice counts, whatever total is passed in |
| `Equity.ResultSlicesSumToTotal` | app/page.tsx:75-104 | the results' slices sum to the total of the reduce pass: the two passes compute the same values |
| `Equity.SumOfShares` | app/page.tsx:99 | for a positive total, the sum of the percentage shares is the share of the summed slices |
| `Equity.PercentagesSumTo100` | app/page.tsx:99 | when the total is positive the percentages sum to exactly 100 |
| `Equity.SumOfDollarValues` | app/page.tsx:100 | the dollar values sum to (sum of percentages / 100) times the valuation |
| `Equity.DollarValuesSumToValuation` | app/page.tsx:99-100 | when the total is positive the dollar values sum to the company valuation |
| `Equity.PercentageIsShare` | app/page.tsx:99 | with a positive total, percentage times total equals the cofounder's slices times 100 |
| `Equity.ZeroGuard` | app/page.tsx:99-100 | when the total is zero or negative every percentage and every dollar value is 0 |
| `Equity.AllZeroContributions` | app/page.tsx:75-90 | cofounders with no cash, time or idea contribution give a zero total whatever their risk multipliers |
| `Equity.ValuationScaling` | app/page.tsx:99-100 | multiplying the valuation by k multiplies every dollar value by k and leaves every slice count and percentage unchanged |
| `Equity.FullTimeYearIsSalary` | app/page.tsx:80-81 | 40 hours a week over a 12-month horizon is worth exactly the market salary in time slices |
| `Equity.TimeSlicesLinearInHorizon` | app/page.tsx:81 | time slices for horizon h are the 12-month time slices times h / 12 |
| `Equity.HalfHorizonHalvesTime` | app/page.tsx:81 | a 6-month horizon gives half the time slices of 12 months |
| `Equity.RaiseRiskTotal` | app/page.tsx:87-89 | multiplying one risk multiplier by k multiplies that cofounder's slices by k and adds (k - 1) times them to the total |
| `Equity.RaisingRiskRaisesShare` | app/page.tsx:87-99 | with k > 1 and the cofounder's slices positive and below the total, its percentage strictly rises |
| `Equity.RaisingRiskLowersOthers` | app/page.tsx:87-99 | under the same change, every other cofounder with a positive percentage strictly loses percentage |
| `Equity.RaisingRiskSoleHolderStays` | app/page.tsx:87-99 | a cofounder holding all of a positive total keeps exactly the same percentage when its risk multiplier is raised |
| `Equity.ContributorTakesAll` | app/page.tsx:99 | of two cofounders, one with positive slices and one contributing nothing, the first gets 100 percent and the second 0 |
| `Equity.CashOnlyPair` | app/page.tsx:77-99 | cash against nothing: 100 percent and 0 percent |
| `Roster.NatToString` | app/page.tsx:50 | the id string is a non-empty decimal numeral of digits only, one digit exactly below 10, and no leading zero unless the count is 0 |
| `Roster.NatToStringDenotes` | app/page.tsx:50 | the id string read back as a decimal numeral is the number it was made from |
| `Roster.NatToStringInjective` | app/page.tsx:50 | different counts give different id strings |
| `Roster.NewCofounder` | app/page.tsx:50-59 | the appended record has id n as a string, name "Cofounder n", an id that reads back as n, cash 0, 40 hours, salary 120000, idea 0, risk 1 |
| `Roster.Added` | app/page.tsx:49-60 | adding appends exactly one default record with id "old length + 1" and leaves all earlier entries unchanged |
| `Roster.LoneDefaultCofounder` | app/page.tsx:33-111 | the initial single default cofounder over 12 months holds 120000 slices, 100 percent and the whole valuation |
| `Roster.Get` | app/page.tsx:62 | reading a field by key gives a text value for id and name and a number for the others |
| `Roster.WithField` | app/page.tsx:64 | the named field takes the new value and every other field keeps its old value |
| `Roster.Updated` | app/page.tsx:62-66 | same length and order; records with another id untouched; records with the id changed only in the named field |
| `Roster.UpdateKeepsIds` | app/page.tsx:62-66 | editing any field but the id leaves the list of ids unchanged |
| `Roster.UpdateWithSameValue` | app/page.tsx:64 | setting a field to the value it already has changes nothing |
| `Roster.Filtered` | app/page.tsx:70 | the filter keeps exactly the records whose id differs |
| `Roster.FilteredLength` | app/page.tsx:70 | the filter removes exactly as many records as carry the id |
| `Roster.FilteredAppend` | app/page.tsx:70 | the filter works piecewise over a concatenation, so the kept records stay in order |
| `Roster.Removed` | app/page.tsx:68-72 | a list of at most one record is unchanged; a longer one keeps exactly the records with another id |
| `Roster.UniqueCountAtMostOne` | app/page.tsx:70 | with unique ids, at most one record matches an id |
| `Roster.RemovedEmptyIff` | app/page.tsx:68-72 | removal empties a non-empty list if and only if it holds two or more records and every record carries the removed id |
| `Roster.RemoveKeepsOneWhenIdsUnique` | app/page.tsx:68-72 | with unique ids, removal never empties a non-empty list and removes at most one record |
| `Roster.FilteredKeepsUnique` | app/page.tsx:70 | removal keeps ids unique |
| `Roster.AddKeepsUniqueIff` | app/page.tsx:49-60 | adding keeps ids unique if and only if "length + 1" is not already an id |
| `Roster.AddReusingIdDuplicates` | app/page.tsx:50 | if "length + 1" is already an id, adding creates a duplicate id |
| `Roster.AddWithUnusedIdKeepsUnique` | app/page.tsx:50 | if "length + 1" is unused, adding keeps ids unique |
| `Roster.NumberedIdsAreUnique` | app/page.tsx:50 | ids "1", "2", ..., in order, are unique |
| `Roster.AddKeepsNumbered` | app/page.tsx:49-60 | without removals, adding keeps the ids numbered "1".."n" and hence unique |
| `Roster.IdReuseEmptiesList` | app/page.tsx:49-72 | add, remove "1", add, remove "2" from the single initial cofounder leaves ids ["2","2"] and then an empty list |
| `Page.EquityPage.constructor` | app/page.tsx:33-47 | initial state: the single default cofounder "1", valuation 1000000, horizon 12 months, no results |
| `Page.EquityPage.SetCompanyValuation` | app/page.tsx:45 | the valuation becomes the given number, nothing else changes |
| `Page.EquityPage.SetTimeHorizon` | app/page.tsx:46 | the horizon becomes the given number, nothing else changes |
| `Page.EquityPage.AddCofounder` | app/page.tsx:49-60 | the list becomes the added list; uniqueness is kept exactly when the new id is unused; a numbered list stays numbered; results untouched |
| `Page.EquityPage.UpdateCofounder` | app/page.tsx:62-66 | the list becomes the updated list; ids unchanged unless the id field is edited; results untouched |
| `Page.EquityPage.RemoveCofounder` | app/page.tsx:68-72 | the list becomes the guarded removal; it becomes empty exactly when two or more records all carry the id; with unique ids it stays non-empty with unique ids; results untouched |
| `Page.EquityPage.CalculateEquity` | app/page.tsx:74-111 | results become the calculation over the current state, one per cofounder, summing to 100 percent for a positive total and all zero otherwise |

## Left out

- IEEE-754 double arithmetic: the model computes over exact reals, so "sums to 100" is exact here but only approximate in the running page.
- Page markup, tabs, cards, the summary panel and the badge widget (app/page.tsx:113-494, components/BoltBadge.tsx): presentation only. The summary's total-slices figure (app/page.tsx:372) is the sum that `Equity.ResultSlicesSumToTotal` is about.
- Coercing input text to numbers with `Number(...)`, including NaN from non-numeric text: the model takes the numbers as given.
- Display formatting with `toFixed` and `toLocaleString`: locale and float formatting.
- The DOM click of the 'Go to Calculator' button in the empty Results tab (app/page.tsx:401-404), and React's state scheduling and re-rendering: each handler is modelled as one atomic update of the state it sets.
- The `min`/`max` hints on the risk input: they are widget hints that the calculation never enforces, so the model assumes no bound on the risk multiplier.
- Roster.Updated: requires that the value fits the field (text for id and name, a number otherwise). The TypeScript signature `string | number` would let a caller put a string into a numeric field, but every caller on the page passes the matching kind, so the mismatched case is not modelled.
- Roster.NatToString: models `toString` only for the non-negative integers that `length + 1` produces.
