/**
 * The profile record, the filter record and how a profile is assembled
 * from the values the fake-data library hands out (src/hooks/useFakeUsers.ts).
 */
module FakeUsers {
  import opened Wrappers
  import opened JsStrings

  /** `countOfFakeUsers`: every batch holds this many profiles. */
  const CountOfFakeUsers: nat := 24

  const MinAge: int := 18
  const MaxAge: int := 80

  datatype FakeUser = FakeUser(
    id: string,
    firstName: string,
    lastName: string,
    fullName: string,
    username: string,
    email: string,
    phone: string,
    address: string,
    password: string,
    gender: string,
    age: int,
    height: string,
    weight: string,
    profession: string,
    bio: string,
    creditCard: string,
    avatar: string,
    country: string)

  /** The sex the library draws, `'male' | 'female'`. */
  datatype Sex = Male | Female

  function SexName(sex: Sex): (r: string)
    ensures IsLowerWord(r)
    ensures r == "male" || r == "female"
  {
    match sex
    case Male => "male"
    case Female => "female"
  }

  // Ranges and lengths the library promises for the arguments the source passes it.
  type DrawnAge = a: int | MinAge <= a <= MaxAge witness MinAge
  type DrawnHeight = h: int | 150 <= h <= 200 witness 150
  type DrawnWeight = w: int | 45 <= w <= 120 witness 45
  type DrawnPassword = p: string | |p| == 12 witness "aaaaaaaaaaaa"

  /**
   * Everything one call of `generateFakeUser` asks the library for. The
   * values are arbitrary: only the ranges requested of the library are known.
   */
  datatype FakerDraw = FakerDraw(
    uuid: string,
    sex: Sex,
    firstName: string,
    lastName: string,
    username: string,
    email: string,
    phone: string,
    streetAddress: string,
    city: string,
    state: string,
    zipCode: string,
    password: DrawnPassword,
    age: DrawnAge,
    heightCm: DrawnHeight,
    weightKg: DrawnWeight,
    jobTitle: string,
    bio: string,
    creditCardNumber: string,
    portrait: string,
    country: string)

  /** The structural invariants every generated profile satisfies. */
  predicate WellFormed(u: FakeUser)
  {
    && u.fullName == u.firstName + " " + u.lastName
    && (ToLower(u.gender) == "male" || ToLower(u.gender) == "female")
    && MinAge <= u.age <= MaxAge
  }

  /** `generateFakeUser`, with the library's answers given as `d`. */
  function GenerateFakeUser(d: FakerDraw): (u: FakeUser)
    ensures WellFormed(u)
    ensures ToLower(u.gender) == SexName(d.sex)
    ensures u.id == d.uuid && u.country == d.country && u.age == d.age
    ensures |u.password| == 12
  {
    LowerOfCapitalized(SexName(d.sex));
    FakeUser(
      id := d.uuid,
      firstName := d.firstName,
      lastName := d.lastName,
      fullName := d.firstName + " " + d.lastName,
      username := d.username,
      email := d.email,
      phone := d.phone,
      address := d.streetAddress + ", " + d.city + ", " + d.state + " " + d.zipCode,
      password := d.password,
      gender := Capitalize(SexName(d.sex)),
      age := d.age,
      height := Decimal(d.heightCm) + " cm",
      weight := Decimal(d.weightKg) + " kg",
      profession := d.jobTitle,
      bio := d.bio,
      creditCard := d.creditCardNumber,
      avatar := d.portrait,
      country := d.country)
  }

  /**
   * Reads a measurement rendered as `${n}<unit>` back: the number in front
   * of the unit, or None when `m` is not digits followed by `unit`.
   */
  function MeasureValue(m: string, unit: string): Option<nat>
  {
    if |m| > |unit| && m[|m| - |unit|..] == unit
       && forall i :: 0 <= i < |m| - |unit| ==> '0' <= m[i] <= '9'
    then Some(DigitsValue(m[..|m| - |unit|]))
    else None
  }

  /** The height and weight strings of a generated profile carry the drawn numbers. */
  lemma GeneratedMeasuresReadBack(d: FakerDraw)
    ensures MeasureValue(GenerateFakeUser(d).height, " cm") == Some(d.heightCm as nat)
    ensures MeasureValue(GenerateFakeUser(d).weight, " kg") == Some(d.weightKg as nat)
  {
    var u := GenerateFakeUser(d);
    var h := Decimal(d.heightCm);
    var w := Decimal(d.weightKg);
    assert u.height[..|h|] == h && u.height[|h|..] == " cm";
    assert u.weight[..|w|] == w && u.weight[|w|..] == " kg";
    DecimalRoundTrip(d.heightCm);
    DecimalRoundTrip(d.weightKg);
  }

  predicate IsBatch(users: seq<FakeUser>)
  {
    |users| == CountOfFakeUsers && forall i :: 0 <= i < |users| ==> WellFormed(users[i])
  }

  /**
   * `Array.from({ length: countOfFakeUsers }, generateFakeUser)`: the i-th
   * call of `generateFakeUser` receives the library's i-th answers `draws(i)`.
   */
  function GenerateBatch(draws: nat -> FakerDraw): (users: seq<FakeUser>)
    ensures IsBatch(users)
    ensures forall i :: 0 <= i < |users| ==> users[i] == GenerateFakeUser(draws(i))
  {
    var users := seq(CountOfFakeUsers, i requires 0 <= i => GenerateFakeUser(draws(i)));
    assert forall i :: 0 <= i < |users| ==> users[i] == GenerateFakeUser(draws(i)) && WellFormed(users[i]);
    users
  }

  /** `gender: 'any' | 'male' | 'female'`. */
  type GenderChoice = g: string | g == "any" || g == "male" || g == "female" witness "any"

  /** `UserFilters`; `ageRange` is the pair `[low, high]`. */
  datatype UserFilters = UserFilters(gender: GenderChoice, ageRange: (int, int), country: string)

  /** The state the hook starts from and the reset button restores. */
  const DefaultFilters: UserFilters := UserFilters("any", (MinAge, MaxAge), "any")

  /** `Partial<UserFilters>`: each field present or absent. */
  datatype PartialFilters = PartialFilters(
    gender: Option<GenderChoice>,
    ageRange: Option<(int, int)>,
    country: Option<string>)

  const NoChange: PartialFilters := PartialFilters(None, None, None)

  /** A partial record with every field present. */
  function Whole(f: UserFilters): PartialFilters
  {
    PartialFilters(Some(f.gender), Some(f.ageRange), Some(f.country))
  }

  /** `{ ...prev, ...p }`: fields present in `p` replace those of `prev`. */
  function MergeFilters(prev: UserFilters, p: PartialFilters): (r: UserFilters)
    ensures r.gender == (if p.gender.Some? then p.gender.value else prev.gender)
    ensures r.ageRange == (if p.ageRange.Some? then p.ageRange.value else prev.ageRange)
    ensures r.country == (if p.country.Some? then p.country.value else prev.country)
  {
    UserFilters(p.gender.GetOr(prev.gender), p.ageRange.GetOr(prev.ageRange), p.country.GetOr(prev.country))
  }

  /** Spreading `p` then `q` is spreading the one record where `q` wins. */
  function Override(p: PartialFilters, q: PartialFilters): PartialFilters
  {
    PartialFilters(
      if q.gender.Some? then q.gender else p.gender,
      if q.ageRange.Some? then q.ageRange else p.ageRange,
      if q.country.Some? then q.country else p.country)
  }

  lemma MergeNothingKeeps(f: UserFilters)
    ensures MergeFilters(f, NoChange) == f
  {
  }

  /** A complete record replaces whatever was there before. */
  lemma MergeWholeReplaces(prev: UserFilters, f: UserFilters)
    ensures MergeFilters(prev, Whole(f)) == f
  {
  }

  lemma MergeIsIdempotent(f: UserFilters, p: PartialFilters)
    ensures MergeFilters(MergeFilters(f, p), p) == MergeFilters(f, p)
  {
  }

  lemma MergeComposes(f: UserFilters, p: PartialFilters, q: PartialFilters)
    ensures MergeFilters(MergeFilters(f, p), q) == MergeFilters(f, Override(p, q))
  {
  }
}
