/**
 * The workload cache: the three-week workload schedules of each company and
 * of each business, kept until the next 11:30 and read back by company, by
 * `company:business` key, or by company prefix.
 */
module Workload {
  import opened Common
  import opened Dicts

  // ---------------------------------------------------------------------
  // Moments
  // ---------------------------------------------------------------------

  /** A local date-time: a day number, the hour, the minute, and the microseconds within the minute. */
  datatype Moment = Moment(day: int, hour: int, minute: int, micros: int)

  predicate ValidMoment(m: Moment) {
    0 <= m.hour < 24 && 0 <= m.minute < 60 && 0 <= m.micros < 60_000_000
  }

  const MicrosPerMinute: int := 60_000_000
  const MicrosPerDay: int := 24 * 60 * 60_000_000

  /** Microseconds since the start of day 0. */
  function Ticks(m: Moment): int {
    ((m.day * 24 + m.hour) * 60 + m.minute) * MicrosPerMinute + m.micros
  }

  /** `datetime` comparison `a < b`. */
  predicate Before(a: Moment, b: Moment) {
    Ticks(a) < Ticks(b)
  }

  /** `x.replace(hour=11, minute=30, second=0, microsecond=0)` on day `day`. */
  function HalfPastEleven(day: int): Moment {
    Moment(day, 11, 30, 0)
  }

  // ---------------------------------------------------------------------
  // The expiry rule of `update_cache`
  // ---------------------------------------------------------------------

  /** The expiry as the code computes it: tomorrow 11:30 only when the hour is at least 11 and the minute at least 30. */
  function ExpiryAsWritten(now: Moment): (e: Moment)
    ensures e.hour == 11 && e.minute == 30 && e.micros == 0
    ensures e.day == now.day || e.day == now.day + 1
  {
    if now.hour >= 11 && now.minute >= 30 then HalfPastEleven(now.day + 1) else HalfPastEleven(now.day)
  }

  /** The expiry the comment promises: the next 11:30 that has not begun yet. */
  function Expiry(now: Moment): (e: Moment)
    ensures e.hour == 11 && e.minute == 30 && e.micros == 0
  {
    if now.hour > 11 || (now.hour == 11 && now.minute >= 30) then HalfPastEleven(now.day + 1) else HalfPastEleven(now.day)
  }

  /** The intended expiry lies after `now` and at most one day after it, and it is the first 11:30 with that property. */
  lemma ExpirySpec(now: Moment)
    requires ValidMoment(now)
    ensures Before(now, Expiry(now))
    ensures Ticks(Expiry(now)) <= Ticks(now) + MicrosPerDay
    ensures forall d :: Before(now, HalfPastEleven(d)) ==> Expiry(now).day <= d
  {
    forall d | Before(now, HalfPastEleven(d))
      ensures Expiry(now).day <= d
    {
      if d < now.day {
        assert Ticks(HalfPastEleven(d)) <= Ticks(HalfPastEleven(now.day - 1));
      }
    }
  }

  /** The code's rule differs from the intended one exactly after noon in the first half of an hour. */
  lemma ExpiryAsWrittenDiffers(now: Moment)
    ensures ExpiryAsWritten(now) != Expiry(now) <==> now.hour > 11 && now.minute < 30
  {
  }

  /** The code's expiry lies after the update moment exactly when the intended one is used, that is, outside the first half of an hour after noon. */
  lemma ExpiryAsWrittenValid(now: Moment)
    requires ValidMoment(now)
    ensures Before(now, ExpiryAsWritten(now)) <==> !(now.hour > 11 && now.minute < 30)
  {
    ExpiryAsWrittenDiffers(now);
    if !(now.hour > 11 && now.minute < 30) {
      ExpirySpec(now);
    }
  }

  /** At 12:10 the code sets an expiry that has already passed, so the cache it just stored reads as expired. */
  lemma ExpiryAsWrittenStale()
    ensures var now := Moment(0, 12, 10, 0);
      ValidMoment(now) && !Before(now, ExpiryAsWritten(now))
  {
  }

  // ---------------------------------------------------------------------
  // Cached values
  // ---------------------------------------------------------------------

  /**
   * A cached value: a schedule, whose content the cache never inspects, or
   * the `businesses` object mapping `company:business` keys to schedules.
   */
  datatype Value = Schedule(json: string) | Entries(entries: Dict<string, Value>)

  /** `companies.get("businesses", {})`. */
  function Businesses(companies: Dict<string, Value>): Dict<string, Value> {
    var v := Get(companies, "businesses");
    if v.Some? && v.value.Entries? then v.value.entries else []
  }

  /** `f"{company}:{business_name}"`. */
  function BusinessKey(company: string, name: string): string {
    company + ":" + name
  }

  /** The entries whose key starts with `prefix`, keyed by the rest of the key, filed in order. */
  function ByPrefix(bs: Dict<string, Value>, prefix: string): Dict<string, Value> {
    if |bs| == 0 then []
    else
      var m := ByPrefix(bs[..|bs| - 1], prefix);
      var (key, data) := bs[|bs| - 1];
      if StartsWith(key, prefix) then Set(m, key[|prefix|..], data) else m
  }

  lemma PrefixSplit(s: string, prefix: string, name: string)
    ensures s == prefix + name <==> StartsWith(s, prefix) && s[|prefix|..] == name
  {
    if StartsWith(s, prefix) && s[|prefix|..] == name {
      assert s == s[..|prefix|] + s[|prefix|..];
    }
  }

  /** Reading `name` from the filtered entries reads `prefix + name` from all of them. */
  lemma {:induction false} ByPrefixSpec(bs: Dict<string, Value>, prefix: string, name: string)
    requires Distinct(Keys(bs))
    ensures Get(ByPrefix(bs, prefix), name) == Get(bs, prefix + name)
  {
    if |bs| > 0 {
      var init := bs[..|bs| - 1];
      var (key, data) := bs[|bs| - 1];
      assert Keys(init) == Keys(bs)[..|bs| - 1];
      DistinctInit(Keys(bs));
      ByPrefixSpec(init, prefix, name);
      assert bs == init + [(key, data)];
      GetSnoc(init, key, data, prefix + name);
      PrefixSplit(key, prefix, name);
      if StartsWith(key, prefix) {
        GetSet(ByPrefix(init, prefix), key[|prefix|..], data, name);
      }
    }
  }

  // ---------------------------------------------------------------------
  // The cache
  // ---------------------------------------------------------------------

  /** `WorkloadCache.cache_data`: the update moment, the expiry, and the cached companies. */
  class WorkloadCache {
    var updatedAt: Option<Moment>
    var expiresAt: Option<Moment>
    var companies: Dict<string, Value>

    /** The cache as `_load_cache` gives it when there is no readable file. */
    constructor ()
      ensures updatedAt == None && expiresAt == None && companies == []
    {
      updatedAt := None;
      expiresAt := None;
      companies := [];
    }

    /** The cache as `_load_cache` reads it from a file; an expiry that does not parse is `None`. */
    constructor Loaded(updatedAt: Option<Moment>, expiresAt: Option<Moment>, companies: Dict<string, Value>)
      ensures this.updatedAt == updatedAt && this.expiresAt == expiresAt && this.companies == companies
    {
      this.updatedAt := updatedAt;
      this.expiresAt := expiresAt;
      this.companies := companies;
    }

    /** `is_cache_valid`: an expiry is recorded and `now` comes before it. */
    predicate IsCacheValid(now: Moment)
      reads this
    {
      match expiresAt
      case None => false
      case Some(e) => Before(now, e)
    }

    /** `get_company_workload`: the company's entry while the cache is valid. */
    function CompanyWorkload(company: string, now: Moment): (r: Option<Value>)
      reads this
      ensures !IsCacheValid(now) ==> r.None?
      ensures IsCacheValid(now) ==> (r.Some? <==> company in Keys(companies))
    {
      if !IsCacheValid(now) then None else Get(companies, company)
    }

    /** `get_business_workload`: the `company:business` entry of the businesses object while the cache is valid. */
    function BusinessWorkload(company: string, name: string, now: Moment): (r: Option<Value>)
      reads this
      ensures !IsCacheValid(now) ==> r.None?
      ensures IsCacheValid(now) ==> (r.Some? <==> BusinessKey(company, name) in Keys(Businesses(companies)))
    {
      if !IsCacheValid(now) then None else Get(Businesses(companies), BusinessKey(company, name))
    }

    /** `get_all_businesses_workload`: the loop over the businesses object keeping the company's keys. */
    method AllBusinessesWorkload(company: string, now: Moment) returns (r: Dict<string, Value>)
      ensures r == if IsCacheValid(now) then ByPrefix(Businesses(companies), company + ":") else []
    {
      r := [];
      if !IsCacheValid(now) {
        return;
      }
      var bs := Businesses(companies);
      var prefix := company + ":";
      for i := 0 to |bs|
        invariant r == ByPrefix(bs[..i], prefix)
      {
        assert bs[..i + 1][..i] == bs[..i];
        var (key, data) := bs[i];
        if StartsWith(key, prefix) {
          r := Set(r, key[|prefix|..], data);
        }
      }
      assert bs[..|bs|] == bs;
    }

    /**
     * `update_cache`: the new data with the update moment and the expiry the
     * code computes. The fresh cache is valid at once except after noon in
     * the first half of an hour, when that expiry is today's 11:30, already
     * past; while valid, every company reads back what was stored.
     */
    method UpdateCache(data: Dict<string, Value>, now: Moment)
      modifies this
      ensures updatedAt == Some(now) && expiresAt == Some(ExpiryAsWritten(now)) && companies == data
      ensures ValidMoment(now) ==> (IsCacheValid(now) <==> !(now.hour > 11 && now.minute < 30))
      ensures IsCacheValid(now) ==> forall c :: CompanyWorkload(c, now) == Get(data, c)
    {
      updatedAt := Some(now);
      expiresAt := Some(ExpiryAsWritten(now));
      companies := data;
      if ValidMoment(now) {
        ExpiryAsWrittenValid(now);
      }
    }

    /** `clear_cache`: no data and no timestamps, so the cache is invalid at every moment. */
    method ClearCache()
      modifies this
      ensures updatedAt == None && expiresAt == None && companies == []
      ensures forall now :: !IsCacheValid(now)
    {
      updatedAt := None;
      expiresAt := None;
      companies := [];
    }
  }

  /**
   * While the cache is valid, the businesses listed for a company are the
   * `company:business` entries, each read by its business name.
   */
  lemma AllBusinessesSpec(companies: Dict<string, Value>, company: string, name: string)
    requires Distinct(Keys(Businesses(companies)))
    ensures Get(ByPrefix(Businesses(companies), company + ":"), name) == Get(Businesses(companies), BusinessKey(company, name))
  {
    ByPrefixSpec(Businesses(companies), company + ":", name);
  }
}
