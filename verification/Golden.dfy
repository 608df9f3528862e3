/** Dated golden images and the newest of them (`src/golden.rs`, `src/image.rs`). Names are
    compared character by character. */
module Golden {
  import opened Wrappers

  const SUFFIX := ".qcow2"

  datatype Moment = Moment(year: nat, month: nat, day: nat, hour: nat, minute: nat, second: nat)

  predicate IsMoment(m: Moment) {
    m.year < 10000 && m.month < 100 && m.day < 100 && m.hour < 100 && m.minute < 100 && m.second < 100
  }

  predicate Before(a: Moment, b: Moment) {
    a.year < b.year || (a.year == b.year &&
    (a.month < b.month || (a.month == b.month &&
    (a.day < b.day || (a.day == b.day &&
    (a.hour < b.hour || (a.hour == b.hour &&
    (a.minute < b.minute || (a.minute == b.minute && a.second < b.second)))))))))
  }

  // ----- Names -----

  function Digit(n: nat): (c: char)
    requires n < 10
    ensures '0' <= c <= '9'
  {
    '0' + n as char
  }

  /** `n` with leading zeros; only the last `width` digits when there are more. */
  function Digits(n: nat, width: nat): (s: string)
    ensures |s| == width && AllDigits(s)
  {
    if width == 0 then "" else Digits(n / 10, width - 1) + [Digit(n % 10)]
  }

  predicate AllDigits(s: string) {
    forall i :: 0 <= i < |s| ==> '0' <= s[i] <= '9'
  }

  function Day(m: Moment): string { Digits(m.year, 4) + Digits(m.month, 2) + Digits(m.day, 2) }

  function Time(m: Moment): string { Digits(m.hour, 2) + Digits(m.minute, 2) + Digits(m.second, 2) }

  /** `stamp`, for the years that have at most four digits. */
  function Stamp(m: Moment): string { Day(m) + "-" + Time(m) }

  function DatedName(key: string, m: Moment): string {
    key + "-" + Stamp(m) + SUFFIX
  }

  function StripPrefix(s: string, prefix: string): Option<string> {
    if prefix <= s then Some(s[|prefix|..]) else None
  }

  function StripSuffix(s: string, suffix: string): Option<string> {
    if |suffix| <= |s| && s[|s| - |suffix|..] == suffix then Some(s[..|s| - |suffix|]) else None
  }

  /** Before and after the first dash. */
  function SplitDash(s: string): Option<(string, string)> {
    if s == "" then None
    else if s[0] == '-' then Some(("", s[1..]))
    else
      match SplitDash(s[1..])
      case None => None
      case Some((a, b)) => Some(([s[0]] + a, b))
  }

  predicate IsDatedImage(name: string, key: string) {
    match StripPrefix(name, key)
    case None => false
    case Some(rest) =>
      match StripPrefix(rest, "-")
      case None => false
      case Some(rest) =>
        match StripSuffix(rest, SUFFIX)
        case None => false
        case Some(stamp) =>
          match SplitDash(stamp)
          case None => false
          case Some((day, time)) => |day| == 8 && AllDigits(day) && |time| == 6 && AllDigits(time)
  }

  // ----- Order -----

  predicate Less(a: string, b: string) {
    b != "" && (a == "" || a[0] < b[0] || (a[0] == b[0] && Less(a[1..], b[1..])))
  }

  predicate AtMost(a: string, b: string) {
    a == b || Less(a, b)
  }

  lemma {:induction false} LessConcat(a: string, b: string, s: string, t: string)
    requires |a| == |b|
    ensures Less(a + s, b + t) <==> Less(a, b) || (a == b && Less(s, t))
  {
    if a == "" {
      assert a + s == s && b + t == t;
    } else {
      assert (a + s)[1..] == a[1..] + s && (b + t)[1..] == b[1..] + t;
      LessConcat(a[1..], b[1..], s, t);
      assert a == b <==> a[0] == b[0] && a[1..] == b[1..];
    }
  }

  function Power(width: nat): nat {
    if width == 0 then 1 else 10 * Power(width - 1)
  }

  /** Digits of the same width are ordered as the numbers are. */
  lemma {:induction false} DigitsOrder(a: nat, b: nat, width: nat)
    requires a < Power(width) && b < Power(width)
    ensures Less(Digits(a, width), Digits(b, width)) <==> a < b
    ensures Digits(a, width) == Digits(b, width) <==> a == b
  {
    if width > 0 {
      DigitsOrder(a / 10, b / 10, width - 1);
      var x, y := Digits(a / 10, width - 1), Digits(b / 10, width - 1);
      LessConcat(x, y, [Digit(a % 10)], [Digit(b % 10)]);
      assert Digits(a, width)[..width - 1] == x && Digits(b, width)[..width - 1] == y;
      assert Digits(a, width)[width - 1] == Digit(a % 10) && Digits(b, width)[width - 1] == Digit(b % 10);
    }
  }

  lemma FieldOrder(a: nat, b: nat, width: nat, s: string, t: string)
    requires a < Power(width) && b < Power(width)
    ensures Less(Digits(a, width) + s, Digits(b, width) + t) <==> a < b || (a == b && Less(s, t))
  {
    DigitsOrder(a, b, width);
    LessConcat(Digits(a, width), Digits(b, width), s, t);
  }

  lemma Powers()
    ensures Power(2) == 100 && Power(4) == 10000
  {
    assert Power(1) == 10 && Power(3) == 1000;
  }

  predicate DayBefore(a: Moment, b: Moment) {
    a.year < b.year || (a.year == b.year && (a.month < b.month || (a.month == b.month && a.day < b.day)))
  }

  predicate TimeBefore(a: Moment, b: Moment) {
    a.hour < b.hour || (a.hour == b.hour && (a.minute < b.minute || (a.minute == b.minute && a.second < b.second)))
  }

  lemma DayOrder(a: Moment, b: Moment)
    requires IsMoment(a) && IsMoment(b)
    ensures |Day(a)| == |Day(b)| == 8
    ensures Less(Day(a), Day(b)) <==> DayBefore(a, b)
    ensures Day(a) == Day(b) <==> (a.year, a.month, a.day) == (b.year, b.month, b.day)
  {
    Powers();
    var (s, t) := (Digits(a.month, 2) + Digits(a.day, 2), Digits(b.month, 2) + Digits(b.day, 2));
    assert Day(a) == Digits(a.year, 4) + s && Day(b) == Digits(b.year, 4) + t;
    FieldOrder(a.year, b.year, 4, s, t);
    FieldOrder(a.month, b.month, 2, Digits(a.day, 2), Digits(b.day, 2));
    DigitsOrder(a.day, b.day, 2);
    SplitsEqual(Digits(a.year, 4), s, Digits(b.year, 4), t);
    SplitsEqual(Digits(a.month, 2), Digits(a.day, 2), Digits(b.month, 2), Digits(b.day, 2));
    DigitsOrder(a.year, b.year, 4);
    DigitsOrder(a.month, b.month, 2);
  }

  lemma SplitsEqual(a: string, s: string, b: string, t: string)
    requires |a| == |b|
    ensures a + s == b + t <==> a == b && s == t
  {
    if a + s == b + t {
      assert a == (a + s)[..|a|] && s == (a + s)[|a|..] && b == (b + t)[..|a|] && t == (b + t)[|a|..];
    }
  }

  lemma TimeOrder(a: Moment, b: Moment)
    requires IsMoment(a) && IsMoment(b)
    ensures Less(Time(a), Time(b)) <==> TimeBefore(a, b)
  {
    Powers();
    var (s, t) := (Digits(a.minute, 2) + Digits(a.second, 2), Digits(b.minute, 2) + Digits(b.second, 2));
    assert Time(a) == Digits(a.hour, 2) + s && Time(b) == Digits(b.hour, 2) + t;
    FieldOrder(a.hour, b.hour, 2, s, t);
    FieldOrder(a.minute, b.minute, 2, Digits(a.second, 2), Digits(b.second, 2));
    DigitsOrder(a.second, b.second, 2);
  }

  /** Stamps sort by date. */
  lemma StampOrder(a: Moment, b: Moment)
    requires IsMoment(a) && IsMoment(b)
    ensures Less(Stamp(a), Stamp(b)) <==> Before(a, b)
  {
    DayOrder(a, b);
    TimeOrder(a, b);
    LessConcat(Day(a), Day(b), "-" + Time(a), "-" + Time(b));
    LessConcat("-", "-", Time(a), Time(b));
    assert Stamp(a) == Day(a) + ("-" + Time(a)) && Stamp(b) == Day(b) + ("-" + Time(b));
    assert !Less("-", "-");
  }

  /** And so do the dated names of one key. */
  lemma DatedNameOrder(key: string, a: Moment, b: Moment)
    requires IsMoment(a) && IsMoment(b)
    ensures Less(DatedName(key, a), DatedName(key, b)) <==> Before(a, b)
  {
    StampOrder(a, b);
    assert |Stamp(a)| == |Stamp(b)| == 15;
    LessConcat(key + "-", key + "-", Stamp(a) + SUFFIX, Stamp(b) + SUFFIX);
    LessConcat(Stamp(a), Stamp(b), SUFFIX, SUFFIX);
    NotLess(key + "-");
    NotLess(SUFFIX);
    assert DatedName(key, a) == key + "-" + (Stamp(a) + SUFFIX) && DatedName(key, b) == key + "-" + (Stamp(b) + SUFFIX);
  }

  lemma {:induction false} NotLess(s: string)
    ensures !Less(s, s)
  {
    if s != "" {
      NotLess(s[1..]);
    }
  }

  // ----- Whose image it is -----

  lemma {:induction false} SplitDashAt(day: string, time: string)
    requires AllDigits(day)
    ensures SplitDash(day + "-" + time) == Some((day, time))
  {
    if day == "" {
      assert day + "-" + time == "-" + time;
      assert ("-" + time)[1..] == time;
    } else {
      assert (day + "-" + time)[1..] == day[1..] + "-" + time;
      SplitDashAt(day[1..], time);
      assert [day[0]] + day[1..] == day;
    }
  }

  lemma {:induction false} SplitDashLength(s: string)
    ensures match SplitDash(s) case None => true case Some((a, b)) => |s| == |a| + 1 + |b|
  {
    if s != "" && s[0] != '-' {
      SplitDashLength(s[1..]);
    }
  }

  /** A dated image of a key is exactly so much longer than the key. */
  lemma DatedLength(name: string, key: string)
    requires IsDatedImage(name, key)
    ensures |name| == |key| + 22 && key <= name
  {
    var rest := name[|key|..][1..];
    SplitDashLength(rest[..|rest| - |SUFFIX|]);
  }

  lemma {:induction false} DashIsFirst(s: string)
    ensures match SplitDash(s)
            case None => forall i :: 0 <= i < |s| ==> s[i] != '-'
            case Some((a, b)) => s == a + "-" + b && forall i :: 0 <= i < |a| ==> a[i] != '-'
  {
    if s != "" && s[0] != '-' {
      DashIsFirst(s[1..]);
      assert s == [s[0]] + s[1..];
    }
  }

  lemma {:induction false} FirstDash(s: string, k: nat)
    requires k < |s| && s[k] == '-' && forall i :: 0 <= i < k ==> s[i] != '-'
    ensures SplitDash(s) == Some((s[..k], s[k + 1..]))
  {
    if k > 0 {
      FirstDash(s[1..], k - 1);
      assert s[..k] == [s[0]] + s[1..][..k - 1] && s[1..][k..] == s[k + 1..];
    }
  }

  /** A key, a dash, eight digits, a dash, six digits and `.qcow2`. */
  predicate IsWritten(name: string, key: string) {
    var k := |key|;
    && |name| == k + 22 && name[..k] == key && name[k] == '-'
    && (forall i :: k + 1 <= i < k + 9 ==> '0' <= name[i] <= '9')
    && name[k + 9] == '-'
    && (forall i :: k + 10 <= i < k + 16 ==> '0' <= name[i] <= '9')
    && name[k + 16..] == ".qcow2"
  }

  /** The dated images of a key are just the names written so. */
  lemma DatedExactly(name: string, key: string)
    ensures IsDatedImage(name, key) <==> IsWritten(name, key)
  {
    var k := |key|;
    if IsDatedImage(name, key) {
      var stamp := DatedParts(name, key);
    } else if IsWritten(name, key) {
      var stamp := name[k + 1..k + 16];
      assert name[k..][1..] == name[k + 1..];
      assert name[k + 1..][..15] == stamp && name[k + 1..][15..] == name[k + 16..];
      assert forall i :: 0 <= i < 15 ==> stamp[i] == name[k + 1 + i];
      FirstDash(stamp, 8);
    }
  }

  lemma DatedParts(name: string, key: string) returns (stamp: string)
    requires IsDatedImage(name, key)
    ensures name == key + "-" + stamp + ".qcow2" && |stamp| == 15 && stamp[8] == '-'
    ensures AllDigits(stamp[..8]) && AllDigits(stamp[9..])
  {
    var rest := name[|key|..];
    stamp := rest[1..][..|rest| - 7];
    DashIsFirst(stamp);
    var (day, time) := SplitDash(stamp).value;
    assert stamp[..8] == day && stamp[9..] == time;
    assert name == key + rest && rest == "-" + rest[1..] && rest[1..] == stamp + rest[1..][|rest| - 7..];
  }

  /** What is made for a key is claimed by that key and by no other, however they overlap. */
  lemma OneKeyOnly(key: string, other: string, m: Moment)
    requires IsMoment(m)
    ensures IsDatedImage(DatedName(key, m), other) <==> key == other
  {
    var name := DatedName(key, m);
    assert |Stamp(m)| == 15 && |name| == |key| + 22;
    assert name[..|key|] == key;
    if key == other {
      assert name[|key|..] == "-" + Stamp(m) + SUFFIX;
      assert name[|key|..][1..] == Stamp(m) + SUFFIX;
      assert (Stamp(m) + SUFFIX)[15..] == SUFFIX && (Stamp(m) + SUFFIX)[..15] == Stamp(m);
      SplitDashAt(Day(m), Time(m));
    } else if IsDatedImage(name, other) {
      DatedLength(name, other);
    }
  }

  // ----- The newest -----

  function Insert(name: string, sorted: seq<string>): seq<string> {
    if sorted == [] || AtMost(name, sorted[0]) then [name] + sorted else [sorted[0]] + Insert(name, sorted[1..])
  }

  function Sort(names: seq<string>): seq<string> {
    if names == [] then [] else Insert(names[0], Sort(names[1..]))
  }

  /** `newest`: of the dated images of the key, sorted, the last. */
  method Newest(listing: seq<string>, key: string) returns (newest: Option<string>)
    ensures newest.None? <==> forall name :: name in listing ==> !IsDatedImage(name, key)
    ensures newest.Some? ==> newest.value in listing && IsDatedImage(newest.value, key)
    ensures newest.Some? ==> forall name :: name in listing && IsDatedImage(name, key) ==> AtMost(name, newest.value)
  {
    var found := [];
    for i := 0 to |listing|
      invariant forall name :: name in found <==> name in listing[..i] && IsDatedImage(name, key)
    {
      if IsDatedImage(listing[i], key) {
        found := found + [listing[i]];
      }
    }
    assert listing[..|listing|] == listing;
    SortMembers(found);
    SortSorts(found);
    found := Sort(found);
    newest := if found == [] then None else Some(found[|found| - 1]);
    if found != [] {
      assert found[|found| - 1] in found;
      LastIsGreatest(found);
    }
  }

  lemma {:induction false} InsertMembers(name: string, sorted: seq<string>)
    ensures forall n :: n in Insert(name, sorted) <==> n == name || n in sorted
    ensures |Insert(name, sorted)| == |sorted| + 1
  {
    if sorted != [] && !AtMost(name, sorted[0]) {
      InsertMembers(name, sorted[1..]);
      assert sorted == [sorted[0]] + sorted[1..];
    }
  }

  lemma {:induction false} SortMembers(names: seq<string>)
    ensures forall n :: n in Sort(names) <==> n in names
    ensures |Sort(names)| == |names|
  {
    if names != [] {
      SortMembers(names[1..]);
      InsertMembers(names[0], Sort(names[1..]));
      assert names == [names[0]] + names[1..];
    }
  }

  ghost predicate IsSorted(names: seq<string>) {
    names != [] ==> (forall n :: n in names[1..] ==> AtMost(names[0], n)) && IsSorted(names[1..])
  }

  lemma {:induction false} Total(a: string, b: string)
    ensures AtMost(a, b) || AtMost(b, a)
  {
    if a != "" && b != "" && a[0] == b[0] {
      Total(a[1..], b[1..]);
      assert a == [a[0]] + a[1..] && b == [b[0]] + b[1..];
    }
  }

  lemma {:induction false} LessTransitive(a: string, b: string, c: string)
    requires Less(a, b) && Less(b, c)
    ensures Less(a, c)
  {
    if a != "" && a[0] == b[0] == c[0] {
      LessTransitive(a[1..], b[1..], c[1..]);
    }
  }

  lemma AtMostTransitive(a: string, b: string, c: string)
    requires AtMost(a, b) && AtMost(b, c)
    ensures AtMost(a, c)
  {
    if a != b && b != c {
      LessTransitive(a, b, c);
    }
  }

  lemma {:induction false} InsertSorts(name: string, sorted: seq<string>)
    requires IsSorted(sorted)
    ensures IsSorted(Insert(name, sorted))
  {
    var inserted := Insert(name, sorted);
    if sorted == [] {
    } else if AtMost(name, sorted[0]) {
      forall n | n in sorted
        ensures AtMost(name, n)
      {
        assert sorted == [sorted[0]] + sorted[1..];
        if n != sorted[0] {
          AtMostTransitive(name, sorted[0], n);
        }
      }
      assert inserted[1..] == sorted;
    } else {
      Total(name, sorted[0]);
      InsertSorts(name, sorted[1..]);
      InsertMembers(name, sorted[1..]);
      assert inserted[1..] == Insert(name, sorted[1..]);
    }
  }

  lemma {:induction false} SortSorts(names: seq<string>)
    ensures IsSorted(Sort(names))
  {
    if names != [] {
      SortSorts(names[1..]);
      InsertSorts(names[0], Sort(names[1..]));
    }
  }

  lemma {:induction false} LastIsGreatest(sorted: seq<string>)
    requires IsSorted(sorted) && sorted != []
    ensures forall n :: n in sorted ==> AtMost(n, sorted[|sorted| - 1])
  {
    if |sorted| > 1 {
      LastIsGreatest(sorted[1..]);
      assert sorted == [sorted[0]] + sorted[1..];
      assert sorted[|sorted| - 1] in sorted[1..];
    }
  }

  // ----- Builds -----

  datatype Build = Build(key: string, at: Moment)

  /** Builds, of any mix of keys, one after another as time goes on. */
  ghost predicate InOrder(builds: seq<Build>) {
    && (forall b :: b in builds ==> IsMoment(b.at))
    && (forall i, j :: 0 <= i < j < |builds| ==> Before(builds[i].at, builds[j].at) || builds[i].at == builds[j].at)
  }

  /** The directory holds what the builds made and nothing else that looks like an image of
      the key. */
  ghost predicate IsListing(listing: seq<string>, builds: seq<Build>, key: string) {
    && (forall b :: b in builds ==> DatedName(b.key, b.at) in listing)
    && (forall name :: name in listing && IsDatedImage(name, key) ==>
          exists b :: b in builds && name == DatedName(b.key, b.at))
  }

  /** After any sequence of builds `newest` is the last one made for the key: whatever it
      answers, given that it satisfies its contract, is that. */
  lemma NewestIsLastBuilt(listing: seq<string>, builds: seq<Build>, key: string, last: nat, newest: string)
    requires InOrder(builds) && IsListing(listing, builds, key)
    requires last < |builds| && builds[last].key == key
    requires forall i :: last < i < |builds| ==> builds[i].key != key
    requires newest in listing && IsDatedImage(newest, key)
    requires forall name :: name in listing && IsDatedImage(name, key) ==> AtMost(name, newest)
    ensures newest == DatedName(key, builds[last].at)
  {
    var b :| b in builds && newest == DatedName(b.key, b.at);
    var i :| 0 <= i < |builds| && builds[i] == b;
    OneKeyOnly(b.key, key, b.at);
    assert i <= last;
    assert builds[last] in builds;
    OneKeyOnly(key, key, builds[last].at);
    DatedNameOrder(key, builds[last].at, b.at);
    DatedNameOrder(key, b.at, builds[last].at);
  }

  /** A key that was never built has no newest image, whatever other keys have. */
  lemma NothingBuilt(listing: seq<string>, builds: seq<Build>, key: string)
    requires InOrder(builds) && IsListing(listing, builds, key)
    requires forall b :: b in builds ==> b.key != key
    ensures forall name :: name in listing ==> !IsDatedImage(name, key)
  {
    forall name | name in listing && IsDatedImage(name, key)
      ensures false
    {
      var b :| b in builds && name == DatedName(b.key, b.at);
      OneKeyOnly(b.key, key, b.at);
    }
  }

  /** `vitro run` right after some builds: what it starts from. */
  method NewestAfter(listing: seq<string>, ghost builds: seq<Build>, key: string, ghost last: Option<nat>)
      returns (newest: Option<string>)
    requires InOrder(builds) && IsListing(listing, builds, key)
    requires last.None? ==> forall b :: b in builds ==> b.key != key
    requires last.Some? ==> last.value < |builds| && builds[last.value].key == key
    requires last.Some? ==> forall i :: last.value < i < |builds| ==> builds[i].key != key
    ensures newest == if last.None? then None else Some(DatedName(key, builds[last.value].at))
  {
    newest := Newest(listing, key);
    if last.None? {
      NothingBuilt(listing, builds, key);
    } else {
      OneKeyOnly(key, key, builds[last.value].at);
      assert builds[last.value] in builds;
      NewestIsLastBuilt(listing, builds, key, last.value, newest.value);
    }
  }
}
