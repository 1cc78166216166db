/** The plant entity: its value view, the watering-state classifier, the
    process-wide current date, and the mutable Plant object. */
module Plants {
  import opened Results
  import opened JavaText
  import opened Calendar

  datatype WateringState =
    | Hydrated   // does not need watering
    | Okay       // to be watered tomorrow or today
    | Thirsty    // should have been watered earlier

  /** The order in which the states grow more urgent. */
  function Urgency(s: WateringState): nat {
    match s
    case Hydrated => 0
    case Okay => 1
    case Thirsty => 2
  }

  /** The decision of `getWateringState` over exact integers, where
      daysLeft = frequency - dayGap. Stated in terms of the gap alone: the
      plant is thirsty once more than `frequency` days have passed, okay on
      the last two days of its period, hydrated before that and on the day
      it was watered. */
  function Classify(frequency: int, dayGap: int): (s: WateringState)
    ensures s == Hydrated <==> dayGap == 0 || dayGap < frequency - 1
    ensures s == Thirsty <==> dayGap != 0 && dayGap > frequency
    ensures s == Okay <==> dayGap != 0 && frequency - 1 <= dayGap <= frequency
  {
    var daysLeft := frequency - dayGap;
    if dayGap == 0 || daysLeft > 1 then Hydrated
    else if daysLeft < 0 then Thirsty
    else Okay
  }

  /** The same decision as the Java code computes it: daysLeft is an `int`
      and `frequency - dayGap` wraps around. Watered today is still
      hydrated, and wherever the subtraction fits an int the decision is
      the exact one. */
  function ClassifyAsWritten(frequency: int32, dayGap: int32): (s: WateringState)
    ensures dayGap == 0 ==> s == Hydrated
    ensures MinInt <= frequency - dayGap <= MaxInt ==> s == Classify(frequency, dayGap)
  {
    var daysLeft := Wrap32(frequency - dayGap);
    if dayGap == 0 || daysLeft > 1 then Hydrated
    else if daysLeft < 0 then Thirsty
    else Okay
  }

  /** The watering state of a plant last watered on `lastWatered`, watered
      every `frequency` days, as seen on `today`. Fails as Joda does when the
      day gap does not fit an int. */
  function WateringStateOn(lastWatered: LocalDate, frequency: int, today: LocalDate): (r: Result<WateringState>)
    ensures r.Failure? <==> DaysBetween(lastWatered, today).Failure?
    ensures r.Failure? ==> r.error == Arithmetic
    ensures lastWatered == today ==> r == Success(Hydrated)
    ensures r.Success? && frequency >= 1 && Before(today, lastWatered) ==> r.value == Hydrated
    ensures r.Success? ==> r.value == Classify(frequency, DayOrdinal(today) - DayOrdinal(lastWatered))
  {
    var gap :- DaysBetween(lastWatered, today);
    Success(Classify(frequency, gap))
  }

  /** The value held by a Plant object. */
  datatype PlantRecord = PlantRecord(
    name: string,
    specie: string,
    location: string,
    wateringFrequency: int32,
    lastWateredDate: LocalDate)

  /** The entity invariant: a plant is watered at least every day. */
  predicate ValidRecord(p: PlantRecord) {
    p.wateringFrequency >= 1
  }

  /** What the five-argument Plant constructor builds, or the exception it
      throws for a frequency below 1. */
  function NewPlantRecord(name: string, specie: string, location: string,
                          wateringFrequency: int32, lastWateredDate: LocalDate): (r: Result<PlantRecord>)
    ensures r.Success? <==> wateringFrequency >= 1
    ensures r.Failure? ==> r.error == IllegalArgument
    ensures r.Success? ==> ValidRecord(r.value)
    ensures r.Success? ==> r.value == PlantRecord(name, specie, location, wateringFrequency, lastWateredDate)
  {
    if wateringFrequency < 1 then Failure(IllegalArgument)
    else Success(PlantRecord(name, specie, location, wateringFrequency, lastWateredDate))
  }

  /** The process-wide current date used by every status computation. It
      starts at the wall-clock date of process start, given here as
      `today`. */
  class Clock {
    var currentDate: LocalDate

    constructor (today: LocalDate)
      ensures currentDate == today
    {
      currentDate := today;
    }

    method SetCurrentDate(date: LocalDate)
      modifies this
      ensures currentDate == date
    {
      currentDate := date;
    }

    function CurrentDay(): (d: int)
      reads this
      ensures d == currentDate.day
      ensures 1 <= d <= DaysInMonth(currentDate.year, currentDate.month)
    {
      currentDate.day
    }

    function CurrentMonth(): (m: int)
      reads this
      ensures m == currentDate.month && 1 <= m <= 12
    {
      currentDate.month
    }

    function CurrentYear(): (y: int)
      reads this
      ensures y == currentDate.year && MinYear <= y <= MaxYear
    {
      currentDate.year
    }
  }

  /** A plant saved by the user. */
  class Plant {
    var name: string
    var specie: string
    var location: string
    var wateringFrequency: int32
    var lastWateredDate: LocalDate

    ghost predicate Valid()
      reads this
    {
      ValidRecord(Record())
    }

    function Record(): PlantRecord
      reads this
    {
      PlantRecord(name, specie, location, wateringFrequency, lastWateredDate)
    }

    /** The five-argument constructor once its frequency has been checked:
        the fields are assigned with the frequency at Java's default 0, and
        SetWateringFrequency then stores the given one. */
    constructor (name: string, specie: string, location: string,
                 wateringFrequency: int32, lastWateredDate: LocalDate)
      requires wateringFrequency >= 1
      ensures Record() == PlantRecord(name, specie, location, wateringFrequency, lastWateredDate)
      ensures Valid()
    {
      this.name := name;
      this.specie := specie;
      this.location := location;
      this.wateringFrequency := 0;
      this.lastWateredDate := lastWateredDate;
      new;
      var _ := SetWateringFrequency(wateringFrequency);
    }

    /** The five-argument constructor as callers see it: for a frequency
        below 1 SetWateringFrequency throws IllegalArgumentException and no
        plant escapes; otherwise the plant is built. */
    static method New(name: string, specie: string, location: string,
                      wateringFrequency: int32, lastWateredDate: LocalDate) returns (r: Result<Plant>)
      ensures r.Success? <==> NewPlantRecord(name, specie, location, wateringFrequency, lastWateredDate).Success?
      ensures r.Failure? ==> r.error == IllegalArgument
      ensures r.Success? ==> fresh(r.value) && r.value.Valid()
      ensures r.Success? ==> r.value.Record() == NewPlantRecord(name, specie, location, wateringFrequency, lastWateredDate).value
    {
      if wateringFrequency < 1 {
        return Failure(IllegalArgument);
      }
      var p := new Plant(name, specie, location, wateringFrequency, lastWateredDate);
      return Success(p);
    }

    /** The four-argument constructor: the five-argument one with the
        wall-clock date of the call, given here as `today`. */
    static method NewToday(name: string, specie: string, location: string,
                           wateringFrequency: int32, today: LocalDate) returns (r: Result<Plant>)
      ensures r.Success? <==> wateringFrequency >= 1
      ensures r.Failure? ==> r.error == IllegalArgument
      ensures r.Success? ==> fresh(r.value) && r.value.Valid()
      ensures r.Success? ==> r.value.Record() == PlantRecord(name, specie, location, wateringFrequency, today)
    {
      r := New(name, specie, location, wateringFrequency, today);
    }

    method SetName(name: string)
      modifies this
      ensures Record() == old(Record()).(name := name)
    {
      this.name := name;
    }

    method SetSpecie(specie: string)
      modifies this
      ensures Record() == old(Record()).(specie := specie)
    {
      this.specie := specie;
    }

    method SetLocation(location: string)
      modifies this
      ensures Record() == old(Record()).(location := location)
    {
      this.location := location;
    }

    /** Stores a frequency of at least 1; anything below throws
        IllegalArgumentException and leaves the plant as it was. */
    method SetWateringFrequency(wateringFrequency: int32) returns (o: Outcome)
      modifies this
      ensures o == if wateringFrequency < 1 then Fail(IllegalArgument) else Pass
      ensures Record() == if o.Fail? then old(Record()) else old(Record()).(wateringFrequency := wateringFrequency)
      ensures o.Pass? ==> Valid()
      ensures old(Valid()) ==> Valid()
    {
      if wateringFrequency < 1 {
        return Fail(IllegalArgument);
      }
      this.wateringFrequency := wateringFrequency;
      return Pass;
    }

    /** Stamps the plant with the clock's current date; afterwards it is
        hydrated, whatever its state was. */
    method Water(clock: Clock)
      modifies this
      ensures Record() == old(Record()).(lastWateredDate := clock.currentDate)
      ensures old(Valid()) ==> Valid()
      ensures GetWateringState(clock) == Success(Hydrated)
    {
      this.lastWateredDate := clock.currentDate;
    }

    /** The plant's watering state against the clock's current date. */
    function GetWateringState(clock: Clock): (r: Result<WateringState>)
      reads this, clock
      ensures lastWateredDate == clock.currentDate ==> r == Success(Hydrated)
      ensures r.Success? && wateringFrequency >= 1 && Before(clock.currentDate, lastWateredDate) ==> r.value == Hydrated
      ensures r.Success? ==> r.value == Classify(wateringFrequency, DayOrdinal(clock.currentDate) - DayOrdinal(lastWateredDate))
    {
      WateringStateOn(lastWateredDate, wateringFrequency, clock.currentDate)
    }
  }

  // ----- properties of the classifier ------------------------------------------

  /** For a fixed frequency the state only grows more urgent as days pass. */
  lemma UrgencyNeverDecreases(frequency: int, gap1: int, gap2: int)
    requires 0 <= gap1 <= gap2
    ensures Urgency(Classify(frequency, gap1)) <= Urgency(Classify(frequency, gap2))
  {
  }

  /** A last-watered date after the current date always reads as hydrated. */
  lemma FutureWateringIsHydrated(frequency: int, gap: int)
    requires frequency >= 1 && gap < 0
    ensures Classify(frequency, gap) == Hydrated
  {
  }

  /** The schedule of a plant watered every day. */
  lemma DailySchedule(gap: nat)
    ensures Classify(1, gap) == if gap == 0 then Hydrated else if gap == 1 then Okay else Thirsty
  {
  }

  /** The schedule of a plant watered every three days. */
  lemma EveryThreeDaysSchedule(gap: nat)
    ensures Classify(3, gap) == if gap <= 1 then Hydrated else if gap <= 3 then Okay else Thirsty
  {
  }

  /** A plant watered on `d`, seen `n` days later, is in the state the gap
      `n` gives; this is the scenario the unit tests play out with the clock. */
  lemma StateAfterDays(d: LocalDate, frequency: int, n: nat)
    requires DayOrdinal(d) + n <= DayOrdinal(LastDate) && n <= MaxInt
    ensures WateringStateOn(d, frequency, AddDays(d, n)) == Success(Classify(frequency, n))
  {
    DaysBetweenAddDays(d, n);
  }

  /** As the clock moves forward from the watering date, the plant's state
      never becomes less urgent. */
  lemma StateNeverImproves(lastWatered: LocalDate, frequency: int, day1: LocalDate, day2: LocalDate)
    requires !Before(day1, lastWatered) && !Before(day2, day1)
    requires WateringStateOn(lastWatered, frequency, day1).Success?
    requires WateringStateOn(lastWatered, frequency, day2).Success?
    ensures Urgency(WateringStateOn(lastWatered, frequency, day1).value)
         <= Urgency(WateringStateOn(lastWatered, frequency, day2).value)
  {
    OrdinalOrder(day1, lastWatered);
    OrdinalOrder(day2, day1);
    UrgencyNeverDecreases(frequency, DayOrdinal(day1) - DayOrdinal(lastWatered), DayOrdinal(day2) - DayOrdinal(lastWatered));
  }

  // ----- the int arithmetic of the Java code -------------------------------------

  /** For a valid frequency the wrap-around can only strike a last-watered
      date in the future. */
  lemma AsWrittenDiffersOnlyForFutureDates(frequency: int32, dayGap: int32)
    requires frequency >= 1
    ensures ClassifyAsWritten(frequency, dayGap) != Classify(frequency, dayGap) ==> dayGap < 0
  {
  }

  /** The largest frequency the form accepts and a plant last watered
      tomorrow: daysLeft wraps to -2147483648 and the plant reads as
      thirsty instead of hydrated. */
  lemma AsWrittenWrapsForFutureDate()
    ensures ClassifyAsWritten(MaxInt, -1) == Thirsty
    ensures Classify(MaxInt, -1) == Hydrated
  {
  }
}
