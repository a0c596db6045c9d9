/**
 * `countries` (src/hooks/useFakeUsers.ts): the sentinel "any" followed by
 * the batch's distinct countries in the default sort order.
 */
module CountryList {
  import opened JsArrays
  import opened FakeUsers
  import opened UserFilter

  const AnyCountry: string := "any"

  /** `allUsers.map(user => user.country)`. */
  function CountryColumn(users: seq<FakeUser>): seq<string>
  {
    seq(|users|, i requires 0 <= i < |users| => users[i].country)
  }

  predicate HasCountry(users: seq<FakeUser>, c: string)
  {
    exists i :: 0 <= i < |users| && users[i].country == c
  }

  /** `['any', ...Array.from(new Set(countries)).sort()]`. */
  function Countries(users: seq<FakeUser>): (r: seq<string>)
    ensures |r| >= 1 && r[0] == AnyCountry
  {
    [AnyCountry] + Sort(Distinct(CountryColumn(users)))
  }

  /**
   * After the sentinel: strictly increasing, hence free of duplicates, and
   * holding exactly the countries of the batch.
   */
  lemma CountriesAfterSentinel(users: seq<FakeUser>)
    ensures StrictlyIncreasing(Countries(users)[1..])
    ensures NoDuplicates(Countries(users)[1..])
    ensures forall c :: c in Countries(users)[1..] <==> HasCountry(users, c)
    ensures |Countries(users)| <= |users| + 1
  {
    var column := CountryColumn(users);
    var tail := Sort(Distinct(column));
    assert Countries(users)[1..] == tail;
    SortIsStrictlyIncreasing(Distinct(column));
    StrictlyIncreasingHasNoDuplicates(tail);
    forall c
      ensures c in tail <==> HasCountry(users, c)
    {
      assert c in tail <==> c in multiset(Distinct(column));
      if c in column {
        var i :| 0 <= i < |column| && column[i] == c;
        assert users[i].country == c;
      }
      if HasCountry(users, c) {
        var i :| 0 <= i < |users| && users[i].country == c;
        assert column[i] == c;
      }
    }
    assert |tail| == |multiset(tail)| == |multiset(Distinct(column))|;
  }

  /**
   * The list after the sentinel is the only strictly increasing enumeration
   * of the batch's countries.
   */
  lemma CountriesAreTheSortedCountrySet(users: seq<FakeUser>, s: seq<string>)
    requires StrictlyIncreasing(s)
    requires forall c :: c in s <==> HasCountry(users, c)
    ensures Countries(users) == [AnyCountry] + s
  {
    CountriesAfterSentinel(users);
    StrictEnumerationIsUnique(Countries(users)[1..], s);
  }

  /** The sentinel is not merged with a country literally called "any": it then appears twice. */
  lemma SentinelNotDeduplicated(users: seq<FakeUser>)
    requires HasCountry(users, AnyCountry)
    ensures multiset(Countries(users))[AnyCountry] == 2
  {
    CountriesAfterSentinel(users);
    var tail := Countries(users)[1..];
    assert Countries(users) == [AnyCountry] + tail;
    NoDuplicatesOccurOnce(tail, AnyCountry);
  }

  /** A chosen country missing from the list matches no profile. */
  lemma UnlistedCountryMatchesNobody(users: seq<FakeUser>, f: UserFilters)
    requires f.country != AnyCountry && f.country !in Countries(users)
    ensures FilterUsers(users, f) == []
  {
    CountriesAfterSentinel(users);
    assert f.country !in Countries(users)[1..];
    FilterDropsAllWhenNonePass(users, f);
  }

  /** Every profile the filter keeps has a country offered by the list. */
  lemma KeptCountriesAreListed(users: seq<FakeUser>, f: UserFilters, u: FakeUser)
    requires u in FilterUsers(users, f)
    ensures u.country in Countries(users)[1..]
  {
    FilterMembership(users, f, u);
    CountriesAfterSentinel(users);
    var i :| 0 <= i < |users| && users[i] == u;
  }
}
