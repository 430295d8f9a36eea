/** Day or night at an instant: by the latest sun event among those of the day before, the day of and
    the day after its UTC date, with sun times looked up once per date. */
module Suntimes {
  import opened Wrappers

  /** A sunrise or a sunset at an instant, in milliseconds. */
  datatype Event = Event(time: int, rise: bool)

  /** `(sunrise, sunset)` of a date, or nothing where the provider raises: a polar day or night. */
  type Provider = int -> Option<(int, int)>

  const DAY: int := 86_400_000

  /** The UTC date of an instant, counted in days. */
  function DateOf(t: int): int {
    t / DAY
  }

  /** `is_night`. */
  predicate IsNight(t: int, sunrise: int, sunset: int) {
    t < sunrise || t >= sunset
  }

  function EventsOf(p: Provider, day: int): seq<Event> {
    match p(day)
    case None => []
    case Some((sunrise, sunset)) => [Event(sunrise, true), Event(sunset, false)]
  }

  function Window(p: Provider, base: int): seq<Event> {
    EventsOf(p, base - 1) + EventsOf(p, base) + EventsOf(p, base + 1)
  }

  function Prior(events: seq<Event>, t: int): seq<Event> {
    if events == [] then []
    else Prior(events[..|events| - 1], t) + if events[|events| - 1].time <= t then [events[|events| - 1]] else []
  }

  /** The order of the tuples: by time, and at the same instant a sunset before a sunrise. */
  predicate Later(a: Event, b: Event) {
    a.time > b.time || (a.time == b.time && a.rise && !b.rise)
  }

  /** The last of the sorted events. */
  function Last(events: seq<Event>): (e: Event)
    requires events != []
    ensures e in events
    ensures forall i :: 0 <= i < |events| ==> !Later(events[i], e)
  {
    if |events| == 1 then events[0]
    else
      var front := Last(events[..|events| - 1]);
      if Later(events[|events| - 1], front) then events[|events| - 1] else front
  }

  /** `classify`. Nothing in the window by then, or nothing resolved, is day. */
  function Night(p: Provider, t: int): bool {
    var prior := Prior(Window(p, DateOf(t)), t);
    prior != [] && !Last(prior).rise
  }

  // --- All days ------------------------------------------------------------------------

  ghost predicate Happens(p: Provider, e: Event) {
    exists day: int :: e in EventsOf(p, day)
  }

  /** No sun event of any day is later and not after `t`. */
  ghost predicate LatestBy(p: Provider, t: int, e: Event) {
    Happens(p, e) && e.time <= t && forall day: int, f: Event :: f in EventsOf(p, day) && f.time <= t ==> !Later(f, e)
  }

  /** Each day's events fall on its own UTC date. */
  ghost predicate OwnDates(p: Provider) {
    forall day: int, e: Event :: e in EventsOf(p, day) ==> DateOf(e.time) == day
  }

  lemma {:induction false} PriorIff(events: seq<Event>, t: int, e: Event)
    ensures e in Prior(events, t) <==> e in events && e.time <= t
  {
    if events != [] {
      PriorIff(events[..|events| - 1], t, e);
      assert events == events[..|events| - 1] + [events[|events| - 1]];
    }
  }

  lemma WindowIff(p: Provider, t: int, e: Event)
    ensures e in Prior(Window(p, DateOf(t)), t)
            <==> e.time <= t && exists day: int :: DateOf(t) - 1 <= day <= DateOf(t) + 1 && e in EventsOf(p, day)
  {
    PriorIff(Window(p, DateOf(t)), t, e);
    assert e in Window(p, DateOf(t)) <==>
      e in EventsOf(p, DateOf(t) - 1) || e in EventsOf(p, DateOf(t)) || e in EventsOf(p, DateOf(t) + 1);
  }

  lemma DatesAreMonotone(a: int, b: int)
    requires a <= b
    ensures DateOf(a) <= DateOf(b)
  {
  }

  lemma LastIsLatest(events: seq<Event>, f: Event)
    requires f in events
    ensures !Later(f, Last(events))
  {
    var i :| 0 <= i < |events| && events[i] == f;
  }

  lemma EarlierDate(a: int, b: int)
    requires DateOf(a) < DateOf(b)
    ensures a < b
  {
    if b <= a { DatesAreMonotone(b, a); }
  }

  /** What the window saw is the latest of all days, if it saw anything: an event outside it is on a
      later date, or on an earlier date than everything inside. */
  lemma WindowSeesTheLatest(p: Provider, t: int)
    requires OwnDates(p) && Prior(Window(p, DateOf(t)), t) != []
    ensures LatestBy(p, t, Last(Prior(Window(p, DateOf(t)), t)))
  {
    var prior := Prior(Window(p, DateOf(t)), t);
    var e := Last(prior);
    WindowIff(p, t, e);
    var own :| DateOf(t) - 1 <= own && e in EventsOf(p, own);
    forall day: int, f: Event | f in EventsOf(p, day) && f.time <= t
      ensures !Later(f, e)
    {
      if DateOf(t) - 1 <= day {
        DatesAreMonotone(f.time, t);
        WindowIff(p, t, f);
        LastIsLatest(prior, f);
      } else {
        EarlierDate(f.time, e.time);
      }
    }
  }

  /** If each day's events fall on its own UTC date, then on any instant with an event in the window
      the three days give the answer of all days: night exactly if the latest event is a sunset. */
  lemma WindowIsEnough(p: Provider, t: int, e: Event)
    requires OwnDates(p) && LatestBy(p, t, e) && Prior(Window(p, DateOf(t)), t) != []
    ensures Night(p, t) <==> !e.rise
  {
    WindowSeesTheLatest(p, t);
    var f := Last(Prior(Window(p, DateOf(t)), t));
    LatestAreAlike(p, t, e, f);
  }

  lemma LatestAreAlike(p: Provider, t: int, e: Event, f: Event)
    requires LatestBy(p, t, e) && LatestBy(p, t, f)
    ensures e == f
  {
    var d :| e in EventsOf(p, d);
    var g :| f in EventsOf(p, g);
    assert !Later(f, e) && !Later(e, f);
  }

  /** A resolvable day before always provides such an event. */
  lemma YesterdayIsEnough(p: Provider, t: int)
    requires OwnDates(p) && p(DateOf(t) - 1).Some?
    ensures Prior(Window(p, DateOf(t)), t) != []
  {
    var e := EventsOf(p, DateOf(t) - 1)[0];
    assert e in EventsOf(p, DateOf(t) - 1);
    assert e.time <= t by { if t < e.time { DatesAreMonotone(t, e.time); } }
    WindowIff(p, t, e);
  }

  /** With no event in the window the answer is day, which misses the answer of all days exactly if
      the latest event, two or more UTC dates back, is a sunset. */
  lemma WindowMissesIff(p: Provider, t: int, e: Event)
    requires OwnDates(p) && LatestBy(p, t, e)
    ensures (Night(p, t) <==> !e.rise) <==> Prior(Window(p, DateOf(t)), t) != [] || e.rise
  {
    if Prior(Window(p, DateOf(t)), t) != [] {
      WindowIsEnough(p, t, e);
    }
  }

  // --- The simple test -----------------------------------------------------------------

  /** A date with a sunrise and then a sunset, both on it. */
  ghost predicate Ordinary(p: Provider, day: int) {
    p(day).Some? && p(day).value.0 < p(day).value.1
  }

  lemma TomorrowIsLater(p: Provider, t: int, f: Event)
    requires OwnDates(p) && f in EventsOf(p, DateOf(t) + 1)
    ensures f.time > t
  {
    EarlierDate(t, f.time);
  }

  lemma PriorDay(p: Provider, t: int, e: Event) returns (day: int)
    requires e in Prior(Window(p, DateOf(t)), t)
    ensures DateOf(t) - 1 <= day <= DateOf(t) + 1 && e in EventsOf(p, day) && e.time <= t
  {
    WindowIff(p, t, e);
    day :| DateOf(t) - 1 <= day <= DateOf(t) + 1 && e in EventsOf(p, day);
  }

  /** The latest event of an instant in the window is today's or, if there is none today, yesterday's. */
  lemma LatestIsTodayOrYesterday(p: Provider, t: int) returns (e: Event)
    requires OwnDates(p) && Prior(Window(p, DateOf(t)), t) != []
    ensures e == Last(Prior(Window(p, DateOf(t)), t)) && e.time <= t
    ensures e in EventsOf(p, DateOf(t))
            || (e in EventsOf(p, DateOf(t) - 1) && forall f: Event :: f in EventsOf(p, DateOf(t)) ==> f.time > t)
    ensures LatestBy(p, t, e)
  {
    e := Last(Prior(Window(p, DateOf(t)), t));
    WindowSeesTheLatest(p, t);
    NotTomorrow(p, t, e);
    if e !in EventsOf(p, DateOf(t)) {
      YesterdayMeansNoneToday(p, t, e);
    }
  }

  lemma NotTomorrow(p: Provider, t: int, e: Event)
    requires OwnDates(p) && e in Prior(Window(p, DateOf(t)), t)
    ensures e in EventsOf(p, DateOf(t)) || e in EventsOf(p, DateOf(t) - 1)
  {
    var day := PriorDay(p, t, e);
    NoLaterThanToday(p, t, e, day);
    assert day == DateOf(t) || day == DateOf(t) - 1;
  }

  lemma NoLaterThanToday(p: Provider, t: int, e: Event, day: int)
    requires OwnDates(p) && day <= DateOf(t) + 1 && e in EventsOf(p, day) && e.time <= t
    ensures day <= DateOf(t)
  {
    if day == DateOf(t) + 1 {
      TomorrowIsLater(p, t, e);
    }
  }

  lemma YesterdayMeansNoneToday(p: Provider, t: int, e: Event)
    requires OwnDates(p) && LatestBy(p, t, e) && e in EventsOf(p, DateOf(t) - 1)
    ensures forall f: Event :: f in EventsOf(p, DateOf(t)) ==> f.time > t
  {
    forall f: Event | f in EventsOf(p, DateOf(t))
      ensures f.time > t
    {
      EarlierDate(e.time, f.time);
      assert f.time <= t ==> !Later(f, e);
    }
  }

  lemma TodayIsAhead(p: Provider, t: int)
    requires Ordinary(p, DateOf(t)) && t < p(DateOf(t)).value.0
    ensures forall f: Event :: f in EventsOf(p, DateOf(t)) ==> f.time > t
  {
  }

  lemma NothingYesterday(p: Provider, t: int)
    requires OwnDates(p) && p(DateOf(t) - 1).None?
    requires forall f: Event :: f in EventsOf(p, DateOf(t)) ==> f.time > t
    ensures !Night(p, t)
  {
    if Prior(Window(p, DateOf(t)), t) != [] {
      var e := LatestIsTodayOrYesterday(p, t);
    }
  }

  lemma YesterdayDecides(p: Provider, t: int)
    requires OwnDates(p) && p(DateOf(t) - 1).Some?
    requires forall f: Event :: f in EventsOf(p, DateOf(t)) ==> f.time > t
    ensures Night(p, t) <==> Ordinary(p, DateOf(t) - 1)
  {
    var yesterday := EventsOf(p, DateOf(t) - 1);
    assert yesterday[0] in yesterday && yesterday[1] in yesterday;
    EarlierDate(yesterday[0].time, t);
    EarlierDate(yesterday[1].time, t);
    YesterdayIsEnough(p, t);
    var e := LatestIsTodayOrYesterday(p, t);
    assert !Later(yesterday[0], e) && !Later(yesterday[1], e);
  }

  /** What yesterday leaves: an ordinary one a sunset, any other a sunrise or nothing. */
  lemma BeforeSunrise(p: Provider, t: int)
    requires OwnDates(p) && Ordinary(p, DateOf(t)) && t < p(DateOf(t)).value.0
    ensures Night(p, t) <==> Ordinary(p, DateOf(t) - 1)
  {
    TodayIsAhead(p, t);
    if p(DateOf(t) - 1).None? {
      NothingYesterday(p, t);
    } else {
      YesterdayDecides(p, t);
    }
  }

  lemma AfterSunrise(p: Provider, t: int)
    requires OwnDates(p) && Ordinary(p, DateOf(t)) && t >= p(DateOf(t)).value.0
    ensures Night(p, t) <==> t >= p(DateOf(t)).value.1
  {
    var today := EventsOf(p, DateOf(t));
    assert today[0] in today && today[1] in today;
    RiseIsPrior(p, t, today[0]);
    var e := LatestIsTodayOrYesterday(p, t);
    assert e in today && !Later(today[0], e) && (today[1].time <= t ==> !Later(today[1], e));
  }

  lemma RiseIsPrior(p: Provider, t: int, e: Event)
    requires e in EventsOf(p, DateOf(t)) && e.time <= t
    ensures Prior(Window(p, DateOf(t)), t) != []
  {
    WindowIff(p, t, e);
  }

  /** On a date whose sunrise precedes its sunset the classifier is the simple test against that
      date's own times exactly from sunrise on, or after a date of the same kind. Before sunrise,
      after a date that does not resolve or whose sunset came first, the simple test says night and
      the classifier day. */
  lemma AgreesWithIsNightIff(p: Provider, t: int)
    requires OwnDates(p) && Ordinary(p, DateOf(t))
    ensures (Night(p, t) <==> IsNight(t, p(DateOf(t)).value.0, p(DateOf(t)).value.1))
            <==> t >= p(DateOf(t)).value.0 || Ordinary(p, DateOf(t) - 1)
  {
    if t < p(DateOf(t)).value.0 {
      BeforeSunrise(p, t);
    } else {
      AfterSunrise(p, t);
    }
  }

  /** A date whose sunset comes first on its UTC date, as far east or west, then an ordinary one. */
  function SunsetFirst(day: int): Option<(int, int)> {
    if day == 0 then Some((50, 20)) else if day == 1 then Some((DAY + 10, DAY + 60)) else None
  }

  lemma DisagreesAfterSunsetFirst()
    ensures OwnDates(SunsetFirst) && Ordinary(SunsetFirst, 1) && SunsetFirst(0).Some? && DateOf(DAY + 5) == 1
    ensures !Night(SunsetFirst, DAY + 5) && IsNight(DAY + 5, DAY + 10, DAY + 60)
  {
    BeforeSunrise(SunsetFirst, DAY + 5);
  }

  /** The events of the days from `first` up to but not including `day`, in order. */
  function EventsFrom(p: Provider, first: int, day: int): seq<Event>
    requires first <= day
    decreases day - first
  {
    if first == day then [] else EventsFrom(p, first, day - 1) + EventsOf(p, day - 1)
  }

  function DatesFrom(first: int, day: int): set<int>
    requires first <= day
    decreases day - first
  {
    if first == day then {} else DatesFrom(first, day - 1) + {day - 1}
  }

  lemma WindowIsThreeDays(p: Provider, base: int)
    ensures EventsFrom(p, base - 1, base + 2) == Window(p, base)
    ensures DatesFrom(base - 1, base + 2) == {base - 1, base, base + 1}
  {
    assert EventsFrom(p, base - 1, base - 1) == [];
    assert EventsFrom(p, base - 1, base) == EventsOf(p, base - 1);
    assert EventsFrom(p, base - 1, base + 1) == EventsOf(p, base - 1) + EventsOf(p, base);
    assert DatesFrom(base - 1, base) == {base - 1};
    assert DatesFrom(base - 1, base + 1) == {base - 1, base};
  }

  // --- The cache -----------------------------------------------------------------------

  /** `night_classifier`'s closure: a provider and the times looked up so far. */
  class NightClassifier {
    const provider: Provider
    var cache: map<int, Option<(int, int)>>
    // history: the dates the provider was asked for
    var lookups: seq<int>

    constructor (provider: Provider)
      ensures this.provider == provider && cache == map[] && Valid()
    {
      this.provider, cache, lookups := provider, map[], [];
    }

    /** Every cached entry, the unresolvable ones included, is what the provider says, and no date
        was asked for twice. */
    ghost predicate Valid()
      reads this
    {
      && (forall day :: day in cache ==> cache[day] == provider(day))
      && (forall i :: 0 <= i < |lookups| ==> lookups[i] in cache)
      && forall i, j :: 0 <= i < j < |lookups| ==> lookups[i] != lookups[j]
    }

    /** The provider's own answer, a raise included. */
    method Ask(day: int) returns (times: Option<(int, int)>)
      modifies this`lookups
      ensures times == provider(day) && lookups == old(lookups) + [day]
    {
      lookups := lookups + [day];
      times := provider(day);
    }

    /** `_times_for`. */
    method TimesFor(day: int) returns (times: Option<(int, int)>)
      requires Valid()
      modifies this`cache, this`lookups
      ensures Valid() && times == provider(day) && cache.Keys == old(cache.Keys) + {day}
      ensures lookups == old(lookups) + if day in old(cache) then [] else [day]
    {
      if day !in cache {
        var answer := Ask(day);
        cache := cache[day := answer];
      }
      times := cache[day];
    }

    /** The events of the three dates around `base`, each date looked up at most once ever. */
    method Gather(base: int) returns (events: seq<Event>, resolved: bool)
      requires Valid()
      modifies this`cache, this`lookups
      ensures Valid() && events == Window(provider, base) && (resolved <==> events != [])
      ensures cache.Keys == old(cache.Keys) + {base - 1, base, base + 1}
    {
      events, resolved := [], false;
      var day := base - 1;
      while day < base + 2
        invariant base - 1 <= day <= base + 2 && Valid()
        invariant events == EventsFrom(provider, base - 1, day) && (resolved <==> events != [])
        invariant cache.Keys == old(cache.Keys) + DatesFrom(base - 1, day)
      {
        var times := TimesFor(day);
        if times.Some? {
          resolved := true;
          events := events + [Event(times.value.0, true), Event(times.value.1, false)];
        }
        day := day + 1;
      }
      WindowIsThreeDays(provider, base);
    }

    /** `classify`: whatever has been cached by earlier calls, the answer is that of the provider
        alone. */
    method Classify(t: int) returns (night: bool)
      requires Valid()
      modifies this`cache, this`lookups
      ensures Valid() && night == Night(provider, t)
      ensures cache.Keys == old(cache.Keys) + {DateOf(t) - 1, DateOf(t), DateOf(t) + 1}
    {
      var events, resolved := Gather(DateOf(t));
      if !resolved {
        return false;
      }
      var prior := PriorOf(events, t);
      night := prior != [] && !Last(prior).rise;
    }
  }

  method PriorOf(events: seq<Event>, t: int) returns (prior: seq<Event>)
    ensures prior == Prior(events, t)
  {
    prior := [];
    var i := 0;
    while i < |events|
      invariant 0 <= i <= |events|
      invariant prior == Prior(events[..i], t)
    {
      assert events[..i + 1][..i] == events[..i];
      if events[i].time <= t {
        prior := prior + [events[i]];
      }
      i := i + 1;
    }
    assert events[..i] == events;
  }
}
