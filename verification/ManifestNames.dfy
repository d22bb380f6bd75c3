/** The manifest text and the object key of app/deletion/service.py. */
module ManifestNames {
  import opened Common
  import Deletion

  // ---------------------------------------------------------------- numbers as text

  datatype Base = Ten | Sixteen

  function Rest(n: nat, base: Base): nat {
    match base case Ten => n / 10 case Sixteen => n / 16
  }

  function Last(n: nat, base: Base): (d: nat)
    ensures d < 16
  {
    match base case Ten => n % 10 case Sixteen => n % 16
  }

  /** `n` has at most `width` digits. */
  predicate Short(n: nat, width: nat, base: Base) {
    if width == 0 then n == 0 else Short(Rest(n, base), width - 1, base)
  }

  function Digit(d: nat): char
    requires d < 16
  {
    "0123456789abcdef"[d]
  }

  /** The last `width` digits of `n`. */
  function Padded(n: nat, width: nat, base: Base): (r: string)
    ensures |r| == width
  {
    if width == 0 then "" else Padded(Rest(n, base), width - 1, base) + [Digit(Last(n, base))]
  }

  lemma DigitInjective(d: nat, e: nat)
    requires d < 16 && e < 16 && Digit(d) == Digit(e)
    ensures d == e
  {
  }

  lemma {:induction false} PaddedInjective(a: nat, b: nat, width: nat, base: Base)
    requires Padded(a, width, base) == Padded(b, width, base)
    requires Short(a, width, base) && Short(b, width, base)
    ensures a == b
  {
    if width > 0 {
      ConcatInjective(Padded(Rest(a, base), width - 1, base), Padded(Rest(b, base), width - 1, base),
                      [Digit(Last(a, base))], [Digit(Last(b, base))]);
      assert [Digit(Last(a, base))][0] == [Digit(Last(b, base))][0];
      DigitInjective(Last(a, base), Last(b, base));
      PaddedInjective(Rest(a, base), Rest(b, base), width - 1, base);
    }
  }

  lemma ConcatInjective<T>(a: seq<T>, b: seq<T>, x: seq<T>, y: seq<T>)
    requires a + x == b + y
    requires |a| == |b| || |x| == |y|
    ensures a == b && x == y
  {
    assert |a| == |b|;
    assert a == (a + x)[..|a|] && b == (b + y)[..|b|];
    assert x == (a + x)[|a|..] && y == (b + y)[|b|..];
  }

  // ---------------------------------------------------------------- UUIDs

  /** A UUID is a number of 128 bits: at most 32 hex digits. */
  predicate IsUuid(id: Id) {
    Short(id, 32, Sixteen)
  }

  /** `str(UUID)`: 32 hex digits in groups of 8, 4, 4, 4 and 12. */
  function UuidText(id: Id): (r: string)
    ensures |r| == 36
  {
    var h := Padded(id, 32, Sixteen);
    h[..8] + "-" + h[8..12] + "-" + h[12..16] + "-" + h[16..20] + "-" + h[20..]
  }

  function WithoutHyphens(t: string): string
    requires |t| == 36
  {
    t[..8] + t[9..13] + t[14..18] + t[19..23] + t[24..]
  }

  lemma HexOfText(h: string)
    requires |h| == 32
    ensures WithoutHyphens(h[..8] + "-" + h[8..12] + "-" + h[12..16] + "-" + h[16..20] + "-" + h[20..]) == h
  {
    var t := h[..8] + "-" + h[8..12] + "-" + h[12..16] + "-" + h[16..20] + "-" + h[20..];
    assert t[..8] == h[..8] && t[9..13] == h[8..12] && t[14..18] == h[12..16] && t[19..23] == h[16..20]
        && t[24..] == h[20..];
  }

  lemma UuidInjective(a: Id, b: Id)
    requires IsUuid(a) && IsUuid(b) && UuidText(a) == UuidText(b)
    ensures a == b
  {
    HexOfText(Padded(a, 32, Sixteen));
    HexOfText(Padded(b, 32, Sixteen));
    PaddedInjective(a, b, 32, Sixteen);
  }

  // ---------------------------------------------------------------- dates

  function YearLength(year: nat): nat {
    if year % 4 == 0 && (year % 100 != 0 || year % 400 == 0) then 366 else 365
  }

  function MonthLength(year: nat, month: nat): nat {
    if month == 2 then YearLength(year) - 337
    else if month == 4 || month == 6 || month == 9 || month == 11 then 30 else 31
  }

  /** Days from 0001-01-01 to the first day of the year. */
  function DaysBefore(year: nat): nat {
    if year <= 1 then 0 else DaysBefore(year - 1) + YearLength(year - 1)
  }

  function DaysBeforeMonth(year: nat, month: nat): nat {
    if month <= 1 then 0 else DaysBeforeMonth(year, month - 1) + MonthLength(year, month - 1)
  }

  /** The year of a day counted from 0001-01-01, searched from `year` on. */
  function YearOf(days: nat, year: nat): (y: nat)
    requires year >= 1 && DaysBefore(year) <= days
    ensures y >= year && DaysBefore(y) <= days < DaysBefore(y + 1)
    decreases days - DaysBefore(year)
  {
    if days < DaysBefore(year + 1) then year else YearOf(days, year + 1)
  }

  function MonthOf(year: nat, rest: nat, month: nat): (m: nat)
    requires 1 <= month <= 12 && DaysBeforeMonth(year, month) <= rest
    ensures month <= m <= 12 && DaysBeforeMonth(year, m) <= rest
    ensures m < 12 ==> rest < DaysBeforeMonth(year, m + 1)
    decreases 12 - month
  {
    if month == 12 || rest < DaysBeforeMonth(year, month + 1) then month else MonthOf(year, rest, month + 1)
  }

  /** The days before a year, in closed form. */
  lemma {:induction false} DaysBeforeClosed(year: nat)
    requires year >= 1
    ensures DaysBefore(year) == 365 * (year - 1) + (year - 1) / 4 - (year - 1) / 100 + (year - 1) / 400
  {
    if year > 1 {
      DaysBeforeClosed(year - 1);
      LeapYears(year - 1);
    }
  }

  lemma LeapYears(year: nat)
    requires year >= 1
    ensures YearLength(year) == 365 + (year / 4 - (year - 1) / 4) - (year / 100 - (year - 1) / 100)
            + (year / 400 - (year - 1) / 400)
  {
    Quarter(year);
    Century(year);
    FourCenturies(year);
    Divides(year);
  }

  lemma Divides(year: nat)
    ensures year % 400 == 0 ==> year % 100 == 0
    ensures year % 100 == 0 ==> year % 4 == 0
  {
    if year % 400 == 0 { assert year == 100 * (4 * (year / 400)); }
    if year % 100 == 0 { assert year == 4 * (25 * (year / 100)); }
  }

  lemma Quarter(year: nat)
    requires year >= 1
    ensures year / 4 - (year - 1) / 4 == if year % 4 == 0 then 1 else 0
  {
  }

  lemma Century(year: nat)
    requires year >= 1
    ensures year / 100 - (year - 1) / 100 == if year % 100 == 0 then 1 else 0
  {
  }

  lemma FourCenturies(year: nat)
    requires year >= 1
    ensures year / 400 - (year - 1) / 400 == if year % 400 == 0 then 1 else 0
  {
  }

  lemma {:induction false} DaysBeforeGrows(a: nat, b: nat)
    requires a <= b
    ensures DaysBefore(a) <= DaysBefore(b)
  {
    if a < b { DaysBeforeGrows(a, b - 1); }
  }

  datatype Civil = Civil(year: nat, month: nat, day: nat, second: nat)

  /** 1970-01-01 is day 719162 counted from 0001-01-01. */
  const EPOCH_DAY := 719162
  const DAY := 86400

  /** The days of the years 1 to 9999. */
  const ALL_DAYS := 3652059

  /** The instants a `datetime` in UTC can hold, in whole seconds: the years 1 to 9999. */
  predicate IsSecond(second: int) {
    0 <= second + EPOCH_DAY * DAY < ALL_DAYS * DAY
  }

  function CivilOf(second: int): (c: Civil)
    requires IsSecond(second)
  {
    var all := second + EPOCH_DAY * DAY;
    var days := all / DAY;
    var year := YearOf(days, 1);
    var rest := days - DaysBefore(year);
    var month := MonthOf(year, rest, 1);
    Civil(year, month, rest - DaysBeforeMonth(year, month) + 1, all % DAY)
  }

  lemma DaysBeforeLast(year: nat)
    requires year == 10000
    ensures DaysBefore(year) == ALL_DAYS
  {
    DaysBeforeClosed(year);
  }

  /** A day belongs to one of the years 1 to 9999 exactly when it is one of `ALL_DAYS`. */
  lemma YearBelow(days: nat, end: nat)
    requires end == 10000
    ensures YearOf(days, 1) < end <==> days < ALL_DAYS
  {
    var year := YearOf(days, 1);
    DaysBeforeLast(end);
    if year < end { DaysBeforeGrows(year + 1, end); } else { DaysBeforeGrows(end, year); }
  }

  lemma YearEnd(year: nat)
    ensures DaysBeforeMonth(year, 12) + 31 == YearLength(year)
  {
    assert DaysBeforeMonth(year, 2) == 31;
    assert DaysBeforeMonth(year, 3) == YearLength(year) - 306;
    assert DaysBeforeMonth(year, 4) == YearLength(year) - 275;
    assert DaysBeforeMonth(year, 5) == YearLength(year) - 245;
    assert DaysBeforeMonth(year, 6) == YearLength(year) - 214;
    assert DaysBeforeMonth(year, 7) == YearLength(year) - 184;
    assert DaysBeforeMonth(year, 8) == YearLength(year) - 153;
    assert DaysBeforeMonth(year, 9) == YearLength(year) - 122;
    assert DaysBeforeMonth(year, 10) == YearLength(year) - 92;
    assert DaysBeforeMonth(year, 11) == YearLength(year) - 61;
  }

  lemma MonthLengths(year: nat, month: nat)
    ensures 28 <= MonthLength(year, month) <= 31
  {
  }

  lemma CivilBounds(second: int)
    requires IsSecond(second)
    ensures var c := CivilOf(second); c.year < 10000 && c.month <= 12 && c.day <= 31 && c.second < DAY
  {
    var days := (second + EPOCH_DAY * DAY) / DAY;
    YearBelow(days, 10000);
    var year := YearOf(days, 1);
    YearEnd(year);
    var rest := days - DaysBefore(year);
    var month := MonthOf(year, rest, 1);
    MonthLengths(year, month);
    assert DaysBefore(year + 1) == DaysBefore(year) + YearLength(year);
    assert month < 12 ==> DaysBeforeMonth(year, month + 1) == DaysBeforeMonth(year, month) + MonthLength(year, month);
  }

  /** The date and the second of the day give the instant back. */
  lemma CivilInjective(a: int, b: int)
    requires IsSecond(a) && IsSecond(b) && CivilOf(a) == CivilOf(b)
    ensures a == b
  {
    var x, y := a + EPOCH_DAY * DAY, b + EPOCH_DAY * DAY;
    assert x / DAY == y / DAY;
    assert x == DAY * (x / DAY) + x % DAY && y == DAY * (y / DAY) + y % DAY;
  }

  function Date(c: Civil, separator: string): string {
    Padded(c.year, 4, Ten) + separator + Padded(c.month, 2, Ten) + separator + Padded(c.day, 2, Ten)
  }

  function TimeOfDay(second: nat): (r: string)
    ensures |r| == 8
  {
    Padded(second / 3600, 2, Ten) + ":" + Padded(second / 60 % 60, 2, Ten) + ":" + Padded(second % 60, 2, Ten)
  }

  /** `isoformat(timespec="seconds")` without the offset. */
  function Clock(second: int): (r: string)
    requires IsSecond(second)
    ensures |r| == 19
  {
    Date(CivilOf(second), "-") + "T" + TimeOfDay(CivilOf(second).second)
  }

  lemma ShortTwo(n: nat)
    requires n < 100
    ensures Short(n, 2, Ten)
  {
    assert Short(n / 10 / 10, 0, Ten) && Short(n / 10, 1, Ten);
  }

  lemma ShortFour(n: nat)
    requires n < 10000
    ensures Short(n, 4, Ten)
  {
    ShortTwo(n / 10 / 10);
    assert Short(n / 10, 3, Ten);
  }

  lemma ShortSix(n: nat)
    requires n < 1000000
    ensures Short(n, 6, Ten)
  {
    ShortFour(n / 10 / 10);
    assert Short(n / 10, 5, Ten);
  }

  lemma TwoDigits(a: nat, b: nat)
    requires a < 100 && b < 100 && Padded(a, 2, Ten) == Padded(b, 2, Ten)
    ensures a == b
  {
    ShortTwo(a);
    ShortTwo(b);
    PaddedInjective(a, b, 2, Ten);
  }

  lemma TimeOfDayInjective(a: nat, b: nat)
    requires a < DAY && b < DAY && TimeOfDay(a) == TimeOfDay(b)
    ensures a == b
  {
    var s, t := TimeOfDay(a), TimeOfDay(b);
    assert s[..2] == Padded(a / 3600, 2, Ten) && s[3..5] == Padded(a / 60 % 60, 2, Ten)
        && s[6..] == Padded(a % 60, 2, Ten);
    assert t[..2] == Padded(b / 3600, 2, Ten) && t[3..5] == Padded(b / 60 % 60, 2, Ten)
        && t[6..] == Padded(b % 60, 2, Ten);
    TwoDigits(a / 3600, b / 3600);
    TwoDigits(a / 60 % 60, b / 60 % 60);
    TwoDigits(a % 60, b % 60);
    assert a / 60 / 60 == a / 3600 && b / 60 / 60 == b / 3600;
  }

  lemma DateInjective(c: Civil, d: Civil)
    requires c.year < 10000 && d.year < 10000 && c.month < 100 && d.month < 100 && c.day < 100 && d.day < 100
    requires Date(c, "-") == Date(d, "-")
    ensures c.year == d.year && c.month == d.month && c.day == d.day
  {
    var s, t := Date(c, "-"), Date(d, "-");
    assert s[..4] == Padded(c.year, 4, Ten) && s[5..7] == Padded(c.month, 2, Ten) && s[8..] == Padded(c.day, 2, Ten);
    assert t[..4] == Padded(d.year, 4, Ten) && t[5..7] == Padded(d.month, 2, Ten) && t[8..] == Padded(d.day, 2, Ten);
    ShortFour(c.year);
    ShortFour(d.year);
    PaddedInjective(c.year, d.year, 4, Ten);
    TwoDigits(c.month, d.month);
    TwoDigits(c.day, d.day);
  }

  lemma ClockInjective(a: int, b: int)
    requires IsSecond(a) && IsSecond(b) && Clock(a) == Clock(b)
    ensures a == b
  {
    var c, d := CivilOf(a), CivilOf(b);
    CivilBounds(a);
    CivilBounds(b);
    ConcatInjective(Date(c, "-") + "T", Date(d, "-") + "T", TimeOfDay(c.second), TimeOfDay(d.second));
    ConcatInjective(Date(c, "-"), Date(d, "-"), "T", "T");
    DateInjective(c, d);
    TimeOfDayInjective(c.second, d.second);
    CivilInjective(a, b);
  }

  // ---------------------------------------------------------------- the manifest

  predicate IsInstant(at: Time) {
    IsSecond(at / 1000000)
  }

  function Fraction(microsecond: nat): string {
    if microsecond != 0 then "." + Padded(microsecond, 6, Ten) + "Z" else "Z"
  }

  /** `_manifest_timestamp`: microseconds appear only when they are not zero. */
  function Stamp(at: Time): string
    requires IsInstant(at)
  {
    Clock(at / 1000000) + Fraction(at % 1000000)
  }

  const HEAD := "{\"session_id\":\""
  const MIDDLE := "\",\"deleted_at\":\""
  const TAIL := "\"}"

  function Manifest(id: Id, at: Time): string
    requires IsInstant(at)
  {
    HEAD + UuidText(id) + MIDDLE + Stamp(at) + TAIL
  }

  lemma FractionInjective(u: nat, v: nat)
    requires u < 1000000 && v < 1000000 && Fraction(u) == Fraction(v)
    ensures u == v
  {
    assert |Fraction(u)| == if u == 0 then 1 else 8;
    assert |Fraction(v)| == if v == 0 then 1 else 8;
    if u != 0 {
      ConcatInjective("." + Padded(u, 6, Ten), "." + Padded(v, 6, Ten), "Z", "Z");
      ConcatInjective(".", ".", Padded(u, 6, Ten), Padded(v, 6, Ten));
      ShortSix(u);
      ShortSix(v);
      PaddedInjective(u, v, 6, Ten);
    }
  }

  lemma StampInjective(a: Time, b: Time)
    requires IsInstant(a) && IsInstant(b) && Stamp(a) == Stamp(b)
    ensures a == b
  {
    ConcatInjective(Clock(a / 1000000), Clock(b / 1000000), Fraction(a % 1000000), Fraction(b % 1000000));
    ClockInjective(a / 1000000, b / 1000000);
    FractionInjective(a % 1000000, b % 1000000);
  }

  lemma ManifestInjective(id: Id, at: Time, id': Id, at': Time)
    requires IsUuid(id) && IsUuid(id') && IsInstant(at) && IsInstant(at') && Manifest(id, at) == Manifest(id', at')
    ensures id == id' && at == at'
  {
    var l := HEAD + UuidText(id) + MIDDLE + Stamp(at);
    var l' := HEAD + UuidText(id') + MIDDLE + Stamp(at');
    ConcatInjective(l, l', TAIL, TAIL);
    ConcatInjective(HEAD + UuidText(id) + MIDDLE, HEAD + UuidText(id') + MIDDLE, Stamp(at), Stamp(at'));
    ConcatInjective(HEAD + UuidText(id), HEAD + UuidText(id'), MIDDLE, MIDDLE);
    ConcatInjective(HEAD, HEAD, UuidText(id), UuidText(id'));
    UuidInjective(id, id');
    StampInjective(at, at');
  }

  // ---------------------------------------------------------------- the object key

  /** The configured prefix and the SHA-256 hex digest. */
  datatype Codec = Codec(prefix: string, digest: string -> string)

  /** The digest also covers a fixed version tag. */
  const TAG := "weiquan-deletion-manifest-v1\0"

  function ObjectKey(c: Codec, id: Id, at: Time): string
    requires IsInstant(at)
  {
    c.prefix + "/" + Date(CivilOf(at / 1000000), "/") + "/" + c.digest(TAG + Manifest(id, at)) + ".age"
  }

  /** Intents whose session is a UUID and whose tombstone time is a `datetime`. */
  predicate Real(dom: Deletion.Intents) {
    forall p :: p in dom ==> IsUuid(p.0) && IsInstant(p.1)
  }

  /** The digests have 64 characters and do not collide on the manifests of these intents. */
  predicate CollisionFree(c: Codec, dom: Deletion.Intents)
    requires Real(dom)
  {
    && (forall p :: p in dom ==> |c.digest(TAG + Manifest(p.0, p.1))| == 64)
    && forall p, q ::
         p in dom && q in dom && c.digest(TAG + Manifest(p.0, p.1)) == c.digest(TAG + Manifest(q.0, q.1)) ==>
         Manifest(p.0, p.1) == Manifest(q.0, q.1)
  }

  /** Each intent has one fixed object key, and no two intents share one. */
  lemma ObjectKeyInjective(c: Codec, dom: Deletion.Intents, p: (Id, Time), q: (Id, Time))
    requires Real(dom) && CollisionFree(c, dom) && p in dom && q in dom
    requires ObjectKey(c, p.0, p.1) == ObjectKey(c, q.0, q.1)
    ensures p == q
  {
    var d, d' := c.digest(TAG + Manifest(p.0, p.1)), c.digest(TAG + Manifest(q.0, q.1));
    var left := c.prefix + "/" + Date(CivilOf(p.1 / 1000000), "/") + "/";
    var right := c.prefix + "/" + Date(CivilOf(q.1 / 1000000), "/") + "/";
    ConcatInjective(left + d, right + d', ".age", ".age");
    ConcatInjective(left, right, d, d');
    ManifestInjective(p.0, p.1, q.0, q.1);
  }

  /** The names of the program; instants no `datetime` can hold have none. */
  function NamesOf(c: Codec): Deletion.Names {
    Deletion.Names((id: Id, at: Time) => if IsInstant(at) then Manifest(id, at) else "",
                   (id: Id, at: Time) => if IsInstant(at) then ObjectKey(c, id, at) else "")
  }

  lemma NamesAreFaithful(c: Codec, dom: Deletion.Intents)
    requires Real(dom) && CollisionFree(c, dom)
    ensures Deletion.Faithful(NamesOf(c), dom)
  {
    forall p, q | p in dom && q in dom && NamesOf(c).key(p.0, p.1) == NamesOf(c).key(q.0, q.1) ensures p == q {
      ObjectKeyInjective(c, dom, p, q);
    }
  }

  /**
   The protocol's main safety result for the real names: it needs no more than that SHA-256
   does not collide on the manifests of the intents that the run creates.
   */
  lemma RemovalNeedsManifestText(c: Codec, es: seq<Deletion.Event>, e: Deletion.Event, more: seq<Deletion.Event>,
                                 id: Id, at: Time)
    requires Real(Deletion.Created(NamesOf(c), es + more)) && CollisionFree(c, Deletion.Created(NamesOf(c), es + more))
    requires var db := Deletion.Run(NamesOf(c), es).world.db; id in db.sessions && db.sessions[id].deletedAt == Some(at)
    requires var db := Deletion.Run(NamesOf(c), es + [e]).world.db; id in db.sessions ==>
             db.sessions[id].deletedAt != Some(at)
    ensures IsInstant(at)
    ensures var objects := Deletion.Run(NamesOf(c), es + more).world.objects;
            ObjectKey(c, id, at) in objects && objects[ObjectKey(c, id, at)].plaintext == Manifest(id, at)
  {
    var names := NamesOf(c);
    var dom := Deletion.Created(names, es + more);
    NamesAreFaithful(c, dom);
    Deletion.CreatedGrows(names, es, more);
    Deletion.FaithfulPart(names, Deletion.Created(names, es), dom);
    Deletion.TombstoneIsCreated(names, es, id, at);
    Deletion.RemovalNeedsManifest(names, es, e, more, id, at);
    ManifestStored(c, Deletion.Run(names, es + more).world.objects, id, at);
  }

  lemma ManifestStored(c: Codec, objects: map<string, Deletion.Blob>, id: Id, at: Time)
    requires IsInstant(at) && Deletion.HasManifest(NamesOf(c), objects, id, at)
    ensures ObjectKey(c, id, at) in objects && objects[ObjectKey(c, id, at)].plaintext == Manifest(id, at)
  {
  }

  // ---------------------------------------------------------------- the assumption can be met

  function Bytes(k: nat): nat {
    if k == 0 then 1 else 256 * Bytes(k - 1)
  }

  lemma {:induction false} ShortBytes(n: nat, k: nat)
    requires n < Bytes(k)
    ensures Short(n, 2 * k, Sixteen)
  {
    if k > 0 {
      ShortBytes(n / 256, k - 1);
      assert Rest(Rest(n, Sixteen), Sixteen) == n / 256;
      assert Short(Rest(n, Sixteen), 2 * k - 1, Sixteen);
    }
  }

  lemma {:induction false} BytesGrow(k: nat)
    ensures Bytes(k) <= Bytes(k + 1)
  {
  }

  const START := EPOCH_DAY * DAY * 1000000

  lemma InstantIsShort(at: Time)
    requires IsInstant(at)
    ensures at + START >= 0 && Short(at + START, 32, Sixteen)
  {
    assert Bytes(4) == 0x1_0000_0000;
    assert Bytes(8) == 0x1_0000_0000 * Bytes(4);
    assert at + START < ALL_DAYS * DAY * 1000000 < Bytes(8);
    BytesGrow(8); BytesGrow(9); BytesGrow(10); BytesGrow(11); BytesGrow(12); BytesGrow(13); BytesGrow(14);
    BytesGrow(15);
    ShortBytes(at + START, 16);
  }

  /** A text of 64 characters from which the intent can be read off. */
  function Label(p: (Id, Time)): (r: string)
    requires p.1 + START >= 0
    ensures |r| == 64
  {
    Padded(p.0, 32, Sixteen) + Padded(p.1 + START, 32, Sixteen)
  }

  lemma PairInjective(a: nat, b: nat, x: nat, y: nat)
    requires Short(a, 32, Sixteen) && Short(b, 32, Sixteen) && Short(x, 32, Sixteen) && Short(y, 32, Sixteen)
    requires Padded(a, 32, Sixteen) + Padded(x, 32, Sixteen) == Padded(b, 32, Sixteen) + Padded(y, 32, Sixteen)
    ensures a == b && x == y
  {
    ConcatInjective(Padded(a, 32, Sixteen), Padded(b, 32, Sixteen), Padded(x, 32, Sixteen), Padded(y, 32, Sixteen));
    PaddedInjective(a, b, 32, Sixteen);
    PaddedInjective(x, y, 32, Sixteen);
  }

  lemma LabelInjective(p: (Id, Time), q: (Id, Time))
    requires IsUuid(p.0) && IsUuid(q.0) && IsInstant(p.1) && IsInstant(q.1) && p.1 + START >= 0 && q.1 + START >= 0
    requires Label(p) == Label(q)
    ensures p == q
  {
    InstantIsShort(p.1);
    InstantIsShort(q.1);
    PairInjective(p.0, q.0, p.1 + START, q.1 + START);
  }

  predicate Labels(p: (Id, Time), text: string) {
    IsUuid(p.0) && IsInstant(p.1) && p.1 + START >= 0 && text == TAG + Manifest(p.0, p.1)
  }

  ghost function ReadableDigest(text: string): string {
    if p: (Id, Time) :| Labels(p, text) then Label(p) else ""
  }

  lemma ReadableDigestOf(id: Id, at: Time)
    requires IsUuid(id) && IsInstant(at)
    ensures at + START >= 0 && ReadableDigest(TAG + Manifest(id, at)) == Label((id, at))
  {
    InstantIsShort(at);
    var text := TAG + Manifest(id, at);
    assert Labels((id, at), text);
    forall p: (Id, Time) | Labels(p, text) ensures p == (id, at) {
      ConcatInjective(TAG, TAG, Manifest(p.0, p.1), Manifest(id, at));
      ManifestInjective(p.0, p.1, id, at);
    }
  }

  /**
   There is a digest with 64 characters that never collides on manifests, so the assumption excludes nothing by
   its form.
  */
  lemma SomeDigestIsCollisionFree(prefix: string) returns (c: Codec)
    ensures forall dom: Deletion.Intents :: Real(dom) ==> CollisionFree(c, dom)
  {
    c := Codec(prefix, text => ReadableDigest(text));
    forall dom: Deletion.Intents | Real(dom) ensures CollisionFree(c, dom) {
      forall p | p in dom ensures p.1 + START >= 0 && c.digest(TAG + Manifest(p.0, p.1)) == Label(p) {
        ReadableDigestOf(p.0, p.1);
      }
      forall p, q | p in dom && q in dom && c.digest(TAG + Manifest(p.0, p.1)) == c.digest(TAG + Manifest(q.0, q.1))
        ensures p == q
      {
        LabelInjective(p, q);
      }
    }
  }
}
