/**
  The synthetic-data generator: 3000 users, then 30 day-records per user.
  Every random draw is an input (a UserDraw per user, a DayDraw per record);
  what remains is the deterministic construction, which the two methods
  below perform with the source's loops.
 */
module GenerateData {
  import opened EngagementTypes
  import opened WeightedChoice

  const NumUsers: nat := 3000
  const NumDays: nat := 30

  const Locations: seq<string> := [
    "Lilongwe", "Blantyre", "Mzuzu", "Zomba", "Kasungu", "Mangochi", "Karonga",
    "Salima", "Nkhotakota", "Liwonde", "Dedza", "Mchinji", "Mulanje", "Thyolo",
    "Balaka", "Mwanza", "Ntcheu", "Rumphi", "Chitipa", "Nsanje", "Chikhwawa"]

  const UrbanAreas: seq<string> := ["Lilongwe", "Blantyre", "Mzuzu"]

  // Label lists and their weights in hundredths, position by position.
  const Devices: seq<string> := ["Android", "Android", "Android", "iOS", "KaiOS", "Feature Phone"]
  const DeviceWeights: seq<nat> := [65, 20, 8, 5, 1, 1]
  const Genders: seq<string> := ["M", "F"]
  const GenderWeights: seq<nat> := [52, 48]
  const Networks: seq<string> := ["Airtel", "TNM", "MTL"]
  const NetworkWeights: seq<nat> := [55, 40, 5]
  const Versions: seq<string> := ["A", "B"]
  const VersionWeights: seq<nat> := [50, 50]
  const FeedbackScores: seq<Option<int>> := [Some(1), Some(2), Some(3), Some(4), Some(5), None]
  const FeedbackWeights: seq<nat> := [5, 10, 25, 35, 20, 5]
  const RetentionFlags: seq<int> := [0, 1]
  const RetentionWeights: seq<nat> := [25, 75]

  /** Every weight vector is a probability distribution: it sums to 1 (100 hundredths). */
  lemma WeightsSumToOne()
    ensures Sum(DeviceWeights) == 100 && Sum(GenderWeights) == 100 && Sum(NetworkWeights) == 100
    ensures Sum(VersionWeights) == 100 && Sum(FeedbackWeights) == 100 && Sum(RetentionWeights) == 100
  {
    assert Sum(DeviceWeights[5..]) == 1;
    assert Sum(DeviceWeights[4..]) == 2;
    assert Sum(DeviceWeights[3..]) == 7;
    assert Sum(DeviceWeights[2..]) == 15;
    assert Sum(DeviceWeights[1..]) == 35;
    assert Sum(FeedbackWeights[5..]) == 5;
    assert Sum(FeedbackWeights[4..]) == 25;
    assert Sum(FeedbackWeights[3..]) == 60;
    assert Sum(FeedbackWeights[2..]) == 85;
    assert Sum(FeedbackWeights[1..]) == 95;
    assert Sum(NetworkWeights[2..]) == 5;
    assert Sum(NetworkWeights[1..]) == 45;
    assert Sum(GenderWeights[1..]) == 48;
    assert Sum(VersionWeights[1..]) == 50;
    assert Sum(RetentionWeights[1..]) == 75;
  }

  /** The effective device weight of any name, unrolled position by position. */
  lemma DeviceWeightOf(x: string)
    ensures EffectiveWeight(Devices, DeviceWeights, x)
         == (if x == "Android" then 93 else if x == "iOS" then 5
             else if x == "KaiOS" || x == "Feature Phone" then 1 else 0)
  {
    var d, w := Devices, DeviceWeights;
    assert EffectiveWeight(d[6..], w[6..], x) == 0;
    assert EffectiveWeight(d[5..], w[5..], x) == (if x == "Feature Phone" then 1 else 0);
    assert EffectiveWeight(d[4..], w[4..], x) == EffectiveWeight(d[5..], w[5..], x) + (if x == "KaiOS" then 1 else 0);
    assert EffectiveWeight(d[3..], w[3..], x) == EffectiveWeight(d[4..], w[4..], x) + (if x == "iOS" then 5 else 0);
    assert EffectiveWeight(d[2..], w[2..], x) == EffectiveWeight(d[3..], w[3..], x) + (if x == "Android" then 8 else 0);
    assert EffectiveWeight(d[1..], w[1..], x) == EffectiveWeight(d[2..], w[2..], x) + (if x == "Android" then 20 else 0);
    assert EffectiveWeight(d, w, x) == EffectiveWeight(d[1..], w[1..], x) + (if x == "Android" then 65 else 0);
  }

  /** "Android" sits at three positions, so its effective weight is
      0.65 + 0.20 + 0.08 = 0.93; iOS gets 0.05, KaiOS and Feature Phone 0.01
      each, and any other name 0. Among the 100 equally likely hundredth-draws
      exactly that many pick each name. */
  lemma DeviceEffectiveWeights(x: string)
    ensures Hits(Devices, DeviceWeights, x, 100)
         == (if x == "Android" then 93 else if x == "iOS" then 5
             else if x == "KaiOS" || x == "Feature Phone" then 1 else 0)
  {
    WeightsSumToOne();
    ChoiceFrequency(Devices, DeviceWeights, x);
    DeviceWeightOf(x);
  }

  // ---------------------------------------------------------------- users

  /** The draws taken for one user, in the ranges their samplers produce:
      randint(18, 65) excludes 65; the categorical draws are hundredths; the
      location is an index into the catalogue, drawn uniformly. */
  datatype UserDraw = UserDraw(age: int, genderU: nat, locationIndex: nat, deviceU: nat, networkU: nat)

  predicate ValidUserDraw(d: UserDraw) {
    18 <= d.age < 65 && d.genderU < 100 && d.locationIndex < |Locations|
    && d.deviceU < 100 && d.networkU < 100
  }

  /** The user with id `id` built from its draws. */
  function MakeUser(id: int, d: UserDraw): (u: User)
    requires ValidUserDraw(d)
    ensures u.userId == id && 18 <= u.age <= 64
    ensures u.gender in Genders && u.location in Locations
    ensures u.device in Devices && u.network in Networks
  {
    WeightsSumToOne();
    User(id, d.age,
         Choose(Genders, GenderWeights, d.genderU),
         Locations[d.locationIndex],
         Choose(Devices, DeviceWeights, d.deviceU),
         Choose(Networks, NetworkWeights, d.networkU))
  }

  /** The user-creation loop: user i has id i and is built from draws[i]. */
  method GenerateUsers(draws: seq<UserDraw>) returns (users: seq<User>)
    requires |draws| == NumUsers
    requires forall i :: 0 <= i < |draws| ==> ValidUserDraw(draws[i])
    ensures |users| == NumUsers
    ensures forall i :: 0 <= i < NumUsers ==> users[i] == MakeUser(i, draws[i])
  {
    users := [];
    for i := 0 to NumUsers
      invariant |users| == i
      invariant forall j :: 0 <= j < i ==> users[j] == MakeUser(j, draws[j])
    {
      users := users + [MakeUser(i, draws[i])];
    }
  }

  // ---------------------------------------------------- day parameters

  /** Parameters of the click (Poisson) and duration (normal) distributions. */
  datatype Params = Params(lambda: nat, mu: int, sigma: nat)

  function ParamsFor(device: string): Params {
    if device == "Android" then Params(6, 320, 60)
    else if device == "iOS" then Params(7, 350, 50)
    else Params(3, 180, 40)
  }

  /** Android and iOS get their own parameters; every other device, KaiOS and
      "Feature Phone" included, gets the basic-phone parameters. */
  lemma ParamsForDevices(device: string)
    ensures device == "Android" ==> ParamsFor(device) == Params(6, 320, 60)
    ensures device == "iOS" ==> ParamsFor(device) == Params(7, 350, 50)
    ensures device != "Android" && device != "iOS" ==> ParamsFor(device) == Params(3, 180, 40)
    ensures ParamsFor("KaiOS") == ParamsFor("Feature Phone") == Params(3, 180, 40)
  {
  }

  function Multiplier(location: string): real {
    if location in UrbanAreas then 1.2 else 0.8
  }

  /** The multiplier is exactly 6/5 for the three cities and exactly 4/5 for
      every other place; the cities are the first three catalogue entries. */
  lemma MultiplierCases(location: string)
    ensures Multiplier(location) == 6.0 / 5.0
        <==> location == "Lilongwe" || location == "Blantyre" || location == "Mzuzu"
    ensures Multiplier(location) == 4.0 / 5.0
        <==> location != "Lilongwe" && location != "Blantyre" && location != "Mzuzu"
    ensures UrbanAreas == Locations[..3]
  {
  }

  /** Python's int() on a float: truncation toward zero. */
  function Truncate(x: real): (n: int)
    ensures 0.0 <= x ==> n as real <= x < n as real + 1.0
    ensures x < 0.0 ==> n as real - 1.0 < x <= n as real
  {
    if x >= 0.0 then x.Floor else -((-x).Floor)
  }

  function MaxInt(a: int, b: int): int { if a >= b then a else b }
  function MaxReal(a: real, b: real): real { if a >= b then a else b }

  /** Clicks: the scaled Poisson sample, truncated, at least 0. */
  function ScaledClicks(base: nat, m: real): (c: int)
    requires m > 0.0
    ensures c >= 0
    ensures c as real <= base as real * m < c as real + 1.0
  {
    MaxInt(0, Truncate(base as real * m))
  }

  /** Duration: the scaled normal sample, truncated, at least 30 seconds. */
  function ScaledDuration(base: real, m: real): (s: int)
    ensures s >= 30
    ensures base * m >= 30.0 ==> s as real <= base * m < s as real + 1.0
    ensures base * m < 31.0 ==> s == 30
  {
    MaxInt(30, Truncate(base * m))
  }

  // ---------------------------------------------------------- date label

  function DigitChar(d: nat): (c: char)
    requires d < 10
    ensures '0' <= c <= '9' && c as int - '0' as int == d
  {
    ('0' as int + d) as char
  }

  predicate AllDigits(s: string) {
    forall i :: 0 <= i < |s| ==> '0' <= s[i] <= '9'
  }

  /** Decimal notation without leading zeros. */
  function Decimal(n: nat): (s: string)
    ensures |s| >= 1 && AllDigits(s)
    ensures n < 10 <==> |s| == 1
    ensures 10 <= n < 100 <==> |s| == 2
  {
    if n < 10 then [DigitChar(n)] else Decimal(n / 10) + [DigitChar(n % 10)]
  }

  function ParseDecimal(s: string): nat
    requires AllDigits(s)
  {
    if s == [] then 0 else ParseDecimal(s[..|s| - 1]) * 10 + (s[|s| - 1] as int - '0' as int)
  }

  lemma {:induction false} ParseDecimalOfDecimal(n: nat)
    ensures ParseDecimal(Decimal(n)) == n
  {
    var s := Decimal(n);
    if n >= 10 {
      ParseDecimalOfDecimal(n / 10);
      assert s[..|s| - 1] == Decimal(n / 10);
    }
  }

  /** Python's `f'{n:02d}'`: at least two digits, left-padded with '0'. */
  function Pad2(n: nat): string {
    if n < 10 then "0" + Decimal(n) else Decimal(n)
  }

  function DateLabel(day: nat): string {
    "2025-11-" + Pad2(day + 1)
  }

  /** Reading the day back out of a label. */
  function DayOfLabel(s: string): nat
    requires |s| >= 8 && AllDigits(s[8..])
  {
    ParseDecimal(s[8..])
  }

  lemma ParseLeadingZero(s: string)
    requires AllDigits(s)
    ensures AllDigits("0" + s) && ParseDecimal("0" + s) == ParseDecimal(s)
    decreases |s|
  {
    if s != [] {
      ParseLeadingZero(s[..|s| - 1]);
      assert ("0" + s)[..|"0" + s| - 1] == "0" + s[..|s| - 1];
    }
  }

  /** For every day of a month shorter than 99 days, the label is "2025-11-"
      followed by day+1 in exactly two digits, and the day can be read back. */
  lemma {:induction false} DateLabelShape(day: nat)
    requires day < 99
    ensures |DateLabel(day)| == 10 && DateLabel(day)[..8] == "2025-11-"
    ensures AllDigits(DateLabel(day)[8..]) && DayOfLabel(DateLabel(day)) == day + 1
  {
    var p := Pad2(day + 1);
    assert DateLabel(day)[8..] == p;
    if day + 1 < 10 {
      ParseLeadingZero(Decimal(day + 1));
    }
    ParseDecimalOfDecimal(day + 1);
  }

  /** Distinct days get distinct labels; the labels run from "2025-11-01" to
      "2025-11-30". */
  lemma DateLabelsDistinct(d1: nat, d2: nat)
    requires d1 < NumDays && d2 < NumDays && d1 != d2
    ensures DateLabel(d1) != DateLabel(d2)
    ensures DateLabel(0) == "2025-11-01" && DateLabel(29) == "2025-11-30"
  {
    DateLabelShape(d1);
    DateLabelShape(d2);
    assert Decimal(3) == "3";
    assert Decimal(30) == Decimal(3) + "0";
  }

  // ------------------------------------------------------------- records

  /** The draws taken for one record. The click and duration samples are
      given as functions of the distribution parameters, since which
      distribution is sampled depends on the user's device. */
  datatype DayDraw = DayDraw(
    poisson: nat -> nat,
    normal: (int, nat) -> real,
    featureU: nat,
    feedbackU: nat,
    retentionU: nat,
    dataMb: real)

  predicate ValidDayDraw(d: DayDraw) {
    d.featureU < 100 && d.feedbackU < 100 && d.retentionU < 100
  }

  /** The record of `user` on day `day` (0-based), built from its draws. */
  function MakeRecord(user: User, day: nat, d: DayDraw): (r: Record)
    requires ValidDayDraw(d)
    ensures UserOf(r) == user && r.date == DateLabel(day)
    ensures r.clicks >= 0 && r.sessionDuration >= 30 && r.dataUsedMb >= 0.0
    ensures r.featureVersion in Versions
    ensures r.feedbackScore in FeedbackScores
    ensures r.retentionFlag in RetentionFlags
  {
    WeightsSumToOne();
    var p := ParamsFor(user.device);
    var m := Multiplier(user.location);
    Record(user.userId, user.age, user.gender, user.location, user.device, user.network,
           DateLabel(day),
           ScaledClicks(d.poisson(p.lambda), m),
           ScaledDuration(d.normal(p.mu, p.sigma), m),
           Choose(Versions, VersionWeights, d.featureU),
           Choose(FeedbackScores, FeedbackWeights, d.feedbackU),
           Choose(RetentionFlags, RetentionWeights, d.retentionU),
           MaxReal(0.0, d.dataMb))
  }

  /** `data` holds the records of the first users' days, in order. */
  ghost predicate Expanded(users: seq<User>, draws: seq<DayDraw>, data: seq<Record>) {
    |data| <= |draws|
    && (forall k :: 0 <= k < |draws| ==> ValidDayDraw(draws[k]))
    && forall k :: 0 <= k < |data| ==>
         k / NumDays < |users| && data[k] == MakeRecord(users[k / NumDays], k % NumDays, draws[k])
  }

  lemma ExpandedAppend(users: seq<User>, draws: seq<DayDraw>, data: seq<Record>, u: nat, day: nat)
    requires Expanded(users, draws, data)
    requires u < |users| && day < NumDays && |data| == u * NumDays + day && |data| < |draws|
    ensures Expanded(users, draws, data + [MakeRecord(users[u], day, draws[u * NumDays + day])])
  {
    var k := u * NumDays + day;
    DayIndex(u, day);
    var next := data + [MakeRecord(users[u], day, draws[k])];
    forall j | 0 <= j < |next|
      ensures j / NumDays < |users| && next[j] == MakeRecord(users[j / NumDays], j % NumDays, draws[j])
    {
      if j < |data| {
        assert next[j] == data[j];
      } else {
        assert j == k;
      }
    }
  }

  lemma DayIndex(u: nat, day: nat)
    requires day < NumDays
    ensures (u * NumDays + day) / NumDays == u && (u * NumDays + day) % NumDays == day
  {
    assert u * 30 + day == (u * NumDays + day);
  }

  /** The expansion loop: for each user in order, for each of the 30 days,
      one record; record k belongs to user k / 30 on day k % 30. */
  method ExpandDays(users: seq<User>, draws: seq<DayDraw>) returns (data: seq<Record>)
    requires |draws| == |users| * NumDays
    requires forall k :: 0 <= k < |draws| ==> ValidDayDraw(draws[k])
    ensures |data| == |users| * NumDays
    ensures forall k :: 0 <= k < |data| ==>
              k / NumDays < |users| && data[k] == MakeRecord(users[k / NumDays], k % NumDays, draws[k])
  {
    data := [];
    for u := 0 to |users|
      invariant |data| == u * NumDays
      invariant Expanded(users, draws, data)
    {
      for day := 0 to NumDays
        invariant |data| == u * NumDays + day
        invariant Expanded(users, draws, data)
      {
        ExpandedAppend(users, draws, data, u, day);
        data := data + [MakeRecord(users[u], day, draws[u * NumDays + day])];
      }
    }
  }

  /** The whole generator: 3000 users, 90000 records in user-major, day-minor
      order, each carrying its user's fields unchanged. */
  method Generate(userDraws: seq<UserDraw>, dayDraws: seq<DayDraw>) returns (data: seq<Record>)
    requires |userDraws| == NumUsers && |dayDraws| == NumUsers * NumDays
    requires forall i :: 0 <= i < |userDraws| ==> ValidUserDraw(userDraws[i])
    requires forall k :: 0 <= k < |dayDraws| ==> ValidDayDraw(dayDraws[k])
    ensures |data| == 90000
    ensures forall k :: 0 <= k < |data| ==>
              k / NumDays < NumUsers
              && data[k] == MakeRecord(MakeUser(k / NumDays, userDraws[k / NumDays]), k % NumDays, dayDraws[k])
    ensures GeneratedShape(data)
  {
    var users := GenerateUsers(userDraws);
    data := ExpandDays(users, dayDraws);
    forall k, j | 0 <= k < |data| && 0 <= j < |data| && k / NumDays == j / NumDays
      ensures UserOf(data[k]) == UserOf(data[j])
    {
    }
  }

  /** What every table the generator writes satisfies: 90000 rows; row k of
      user k / 30 and dated day k % 30; the rows of one user carry the same
      user fields; clamped clicks and durations; ages in [18, 64]; and every
      categorical value taken from its catalogue. */
  predicate GeneratedShape(data: seq<Record>) {
    |data| == NumUsers * NumDays
    && (forall k :: 0 <= k < |data| ==>
          data[k].userId == k / NumDays && data[k].date == DateLabel(k % NumDays)
          && data[k].clicks >= 0 && data[k].sessionDuration >= 30 && 18 <= data[k].age <= 64
          && data[k].gender in Genders && data[k].location in Locations
          && data[k].device in Devices && data[k].network in Networks
          && data[k].featureVersion in Versions && data[k].feedbackScore in FeedbackScores
          && data[k].retentionFlag in RetentionFlags)
    && (forall k, j :: 0 <= k < |data| && 0 <= j < |data| && k / NumDays == j / NumDays ==>
          UserOf(data[k]) == UserOf(data[j]))
  }
}
