/**
 * The greeting on the home page: Morning, Afternoon or Evening by the hour
 * of the local clock. The hour is a parameter. As written, both bounds
 * around noon are strict, so hour 12 falls through to Evening;
 * `GreetingIntended` is the rule with noon in the afternoon.
 */
module Greetings {

  datatype Greeting = Morning | Afternoon | Evening

  predicate IsHour(h: int) { 0 <= h <= 23 }

  /** The rule as written: `time > 4 && time < 12`, then `time > 12 && time < 16`. */
  function GreetingAsWritten(hour: int): (g: Greeting)
    ensures g == Morning <==> 4 < hour < 12
    ensures g == Afternoon <==> 12 < hour < 16
  {
    if hour > 4 && hour < 12 then Morning
    else if hour > 12 && hour < 16 then Afternoon
    else Evening
  }

  /** The rule with noon counted as afternoon: the morning and afternoon
      ranges meet at 12. */
  function GreetingIntended(hour: int): (g: Greeting)
    ensures g == Morning <==> 4 < hour < 12
    ensures g == Afternoon <==> 12 <= hour < 16
  {
    if hour > 4 && hour < 12 then Morning
    else if hour >= 12 && hour < 16 then Afternoon
    else Evening
  }

  /** Hours 5 to 11 are the morning, 13 to 15 the afternoon, and 0 to 4
      and 16 to 23 the evening. */
  lemma GreetingRanges(hour: int)
    requires IsHour(hour)
    ensures 5 <= hour <= 11 ==> GreetingAsWritten(hour) == Morning
    ensures 13 <= hour <= 15 ==> GreetingAsWritten(hour) == Afternoon
    ensures hour <= 4 || hour >= 16 ==> GreetingAsWritten(hour) == Evening
  {
  }

  /** Noon greets with Evening, between a Morning at 11 and an Afternoon at 13. */
  lemma NoonIsEvening()
    ensures GreetingAsWritten(11) == Morning
    ensures GreetingAsWritten(12) == Evening
    ensures GreetingAsWritten(13) == Afternoon
  {
  }

  /** The intended rule differs from the written one at noon only. */
  lemma IntendedDiffersOnlyAtNoon(hour: int)
    ensures GreetingIntended(hour) != GreetingAsWritten(hour) <==> hour == 12
    ensures GreetingIntended(12) == Afternoon
  {
  }

  /** Under the intended rule the daytime greetings cover 5 to 15 without a
      gap: every hour from the first morning hour to the last afternoon hour
      is Morning or Afternoon. */
  lemma IntendedDaytimeContiguous(hour: int)
    requires 5 <= hour <= 15
    ensures GreetingIntended(hour) != Evening
  {
  }
}
