/**
 * The `useFakeUsers` hook (src/hooks/useFakeUsers.ts): the current batch and
 * the current filters, replaced through `generateNewUsers` and
 * `updateFilters`; the filtered list and the country list are derived from them.
 */
module UseFakeUsers {
  import opened FakeUsers
  import opened UserFilter
  import opened CountryList
  import opened JsArrays

  class UserStore {
    var allUsers: seq<FakeUser>
    var filters: UserFilters

    /** The batch is always a full batch of well-formed profiles. */
    ghost predicate Valid()
      reads this
    {
      IsBatch(allUsers)
    }

    /** The initial `useState` values: a fresh batch and the default filters. */
    constructor (draws: nat -> FakerDraw)
      ensures Valid()
      ensures allUsers == GenerateBatch(draws)
      ensures filters == DefaultFilters
    {
      allUsers := GenerateBatch(draws);
      filters := DefaultFilters;
    }

    /** `users`: the profiles of the batch that pass the current filters. */
    function Users(): (r: seq<FakeUser>)
      reads this
      ensures forall u :: u in r <==> u in allUsers && KeepUser(filters, u)
      ensures Valid() && filters == DefaultFilters ==> r == allUsers
    {
      var r := FilterUsers(allUsers, filters);
      forall u ensures u in r <==> u in allUsers && KeepUser(filters, u) {
        FilterMembership(allUsers, filters, u);
      }
      if IsBatch(allUsers) && filters == DefaultFilters then
        DefaultFiltersKeepEveryProfile(allUsers);
        r
      else r
    }

    /** `countries`: the sentinel, then the batch's distinct countries in order. */
    function CountryOptions(): (r: seq<string>)
      reads this
      ensures |r| >= 1 && r[0] == AnyCountry
      ensures StrictlyIncreasing(r[1..])
      ensures forall c :: c in r[1..] <==> HasCountry(allUsers, c)
    {
      CountriesAfterSentinel(allUsers);
      Countries(allUsers)
    }

    /** `generateNewUsers`: a whole new batch; the filters stay as they were. */
    method GenerateNewUsers(draws: nat -> FakerDraw)
      modifies this
      ensures Valid()
      ensures allUsers == GenerateBatch(draws)
      ensures filters == old(filters)
    {
      allUsers := GenerateBatch(draws);
    }

    /** `updateFilters`: the fields present in `p` replace the current ones. */
    method UpdateFilters(p: PartialFilters)
      requires Valid()
      modifies this
      ensures Valid()
      ensures allUsers == old(allUsers)
      ensures filters.gender == (if p.gender.Some? then p.gender.value else old(filters.gender))
      ensures filters.ageRange == (if p.ageRange.Some? then p.ageRange.value else old(filters.ageRange))
      ensures filters.country == (if p.country.Some? then p.country.value else old(filters.country))
    {
      filters := MergeFilters(filters, p);
    }
  }
}
