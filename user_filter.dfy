/**
 * `filteredUsers` (src/hooks/useFakeUsers.ts): the profiles of the batch
 * that pass the gender, age and country checks, in batch order.
 */
module UserFilter {
  import opened JsStrings
  import opened FakeUsers

  /** The gender check: no restriction, or the lower-cased gender equals the choice. */
  predicate GenderMatches(f: UserFilters, u: FakeUser)
  {
    f.gender == "any" || ToLower(u.gender) == f.gender
  }

  /** The age check: both ends of the range are inclusive. */
  predicate AgeInRange(f: UserFilters, u: FakeUser)
  {
    f.ageRange.0 <= u.age <= f.ageRange.1
  }

  /** The country check: no restriction, or exact equality. */
  predicate CountryMatches(f: UserFilters, u: FakeUser)
  {
    f.country == "any" || u.country == f.country
  }

  /** The callback given to `allUsers.filter`: three early rejections, then `true`. */
  function KeepUser(f: UserFilters, u: FakeUser): (keep: bool)
    ensures keep <==> GenderMatches(f, u) && AgeInRange(f, u) && CountryMatches(f, u)
  {
    if f.gender != "any" && ToLower(u.gender) != f.gender then false
    else if u.age < f.ageRange.0 || u.age > f.ageRange.1 then false
    else if f.country != "any" && u.country != f.country then false
    else true
  }

  /** `allUsers.filter(...)`, visiting the batch from the front. */
  function FilterUsers(users: seq<FakeUser>, f: UserFilters): (r: seq<FakeUser>)
    ensures |r| <= |users|
    ensures forall i :: 0 <= i < |r| ==> KeepUser(f, r[i])
  {
    if users == [] then []
    else (if KeepUser(f, users[0]) then [users[0]] else []) + FilterUsers(users[1..], f)
  }

  /** `a` can be obtained from `b` by deleting elements, keeping the rest in order. */
  predicate IsSubsequence(a: seq<FakeUser>, b: seq<FakeUser>)
  {
    if a == [] then true
    else if b == [] then false
    else (a[0] == b[0] && IsSubsequence(a[1..], b[1..])) || IsSubsequence(a, b[1..])
  }

  lemma {:induction false} FilterIsSubsequence(users: seq<FakeUser>, f: UserFilters)
    ensures IsSubsequence(FilterUsers(users, f), users)
  {
    if users != [] {
      FilterIsSubsequence(users[1..], f);
      var r, t := FilterUsers(users, f), FilterUsers(users[1..], f);
      if KeepUser(f, users[0]) {
        assert r[0] == users[0] && r[1..] == t;
      } else {
        assert r == t;
      }
    }
  }

  /** Soundness and completeness: a profile is in the result exactly when it is in the batch and passes. */
  lemma {:induction false} FilterMembership(users: seq<FakeUser>, f: UserFilters, u: FakeUser)
    ensures u in FilterUsers(users, f) <==> u in users && KeepUser(f, u)
  {
    if users != [] {
      FilterMembership(users[1..], f, u);
      assert users == [users[0]] + users[1..];
    }
  }

  /** Every copy of a passing profile is kept and every copy of a failing one is dropped. */
  lemma {:induction false} FilterMultiplicity(users: seq<FakeUser>, f: UserFilters, u: FakeUser)
    ensures multiset(FilterUsers(users, f))[u] == if KeepUser(f, u) then multiset(users)[u] else 0
  {
    if users != [] {
      FilterMultiplicity(users[1..], f, u);
      assert users == [users[0]] + users[1..];
    }
  }

  lemma {:induction false} FilterIsIdempotent(users: seq<FakeUser>, f: UserFilters)
    ensures FilterUsers(FilterUsers(users, f), f) == FilterUsers(users, f)
  {
    if users != [] {
      FilterIsIdempotent(users[1..], f);
      if KeepUser(f, users[0]) {
        var r, t := FilterUsers(users, f), FilterUsers(users[1..], f);
        assert r == [users[0]] + t;
        assert r[1..] == t;
        assert FilterUsers(r, f) == [users[0]] + FilterUsers(t, f);
      } else {
        assert FilterUsers(users, f) == FilterUsers(users[1..], f);
      }
    }
  }

  lemma {:induction false} FilterKeepsAllWhenAllPass(users: seq<FakeUser>, f: UserFilters)
    requires forall i :: 0 <= i < |users| ==> KeepUser(f, users[i])
    ensures FilterUsers(users, f) == users
  {
    if users != [] {
      FilterKeepsAllWhenAllPass(users[1..], f);
      assert users == [users[0]] + users[1..];
    }
  }

  lemma {:induction false} FilterDropsAllWhenNonePass(users: seq<FakeUser>, f: UserFilters)
    requires forall i :: 0 <= i < |users| ==> !KeepUser(f, users[i])
    ensures FilterUsers(users, f) == []
  {
    if users != [] {
      FilterDropsAllWhenNonePass(users[1..], f);
    }
  }

  /** With the default filters every well-formed profile passes, so nothing is hidden. */
  lemma DefaultFiltersKeepEveryProfile(users: seq<FakeUser>)
    requires forall i :: 0 <= i < |users| ==> WellFormed(users[i])
    ensures FilterUsers(users, DefaultFilters) == users
  {
    FilterKeepsAllWhenAllPass(users, DefaultFilters);
  }

  /** A range whose low end exceeds its high end admits nobody. */
  lemma InvertedAgeRangeKeepsNobody(users: seq<FakeUser>, f: UserFilters)
    requires f.ageRange.0 > f.ageRange.1
    ensures FilterUsers(users, f) == []
  {
    FilterDropsAllWhenNonePass(users, f);
  }

  /** On a generated profile the gender check selects by the drawn sex. */
  lemma GenderCheckSelectsDrawnSex(f: UserFilters, d: FakerDraw)
    ensures GenderMatches(f, GenerateFakeUser(d)) <==> f.gender == "any" || f.gender == SexName(d.sex)
  {
  }
}
