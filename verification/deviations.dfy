/**
 * Filtering of deviation (service disruption) messages: parse_deviation_data,
 * should_include_deviation and calculate_priority_score.
 */
module Deviations {
  import opened Wrappers
  import opened Config
  import opened Seqs

  /** The `priority` object of a deviation; each level may be missing. */
  datatype RawPriority = RawPriority(
    importance: Option<int>,
    influence: Option<int>,
    urgency: Option<int>)

  /** One element of a deviation's `message_variants` array. */
  datatype RawMessage = RawMessage(
    header: Option<string>,
    details: Option<string>,
    language: Option<string>)

  /** One element of the deviations array. */
  datatype RawDeviation = RawDeviation(
    priority: Option<RawPriority>,
    variants: Option<seq<RawMessage>>)

  /** The decoded response body: an array of deviations, or anything else. */
  datatype DeviationPayload = NotAnArray | Array(items: seq<RawDeviation>)

  /** A message selected for display. */
  datatype Disruption = Disruption(header: string, details: string)

  const NO_PRIORITY: RawPriority := RawPriority(None, None, None)

  /** calculate_priority_score: the product of the three levels, a missing level counting as 0. */
  function PriorityScore(p: RawPriority): (score: int)
    ensures p.importance.None? || p.influence.None? || p.urgency.None? ==> score == 0
    ensures p.importance.Some? && p.influence.Some? && p.urgency.Some?
            ==> score == p.importance.value * p.influence.value * p.urgency.value
  {
    p.importance.GetOr(0) * p.influence.GetOr(0) * p.urgency.GetOr(0)
  }

  /** The score of a deviation; a missing `priority` object reads as an empty one. */
  function DeviationScore(dev: RawDeviation): int {
    PriorityScore(dev.priority.GetOr(NO_PRIORITY))
  }

  /** should_include_deviation: the score is strictly above the threshold and the message is Swedish. */
  function ShouldInclude(dev: RawDeviation, m: RawMessage): (r: bool)
    ensures r <==> && dev.priority.Some?
                   && (var p := dev.priority.value;
                       && p.importance.Some? && p.influence.Some? && p.urgency.Some?
                       && p.importance.value * p.influence.value * p.urgency.value > PRIORITY_THRESHOLD)
                   && m.language == Some("sv")
  {
    DeviationScore(dev) > PRIORITY_THRESHOLD && m.language == Some("sv")
  }

  /** A deviation lacking its priority object or any level scores 0 and is never shown. */
  lemma MissingLevelExcludes(dev: RawDeviation, m: RawMessage)
    requires dev.priority.None?
          || dev.priority.value.importance.None?
          || dev.priority.value.influence.None?
          || dev.priority.value.urgency.None?
    ensures DeviationScore(dev) == 0
    ensures !ShouldInclude(dev, m)
  {
  }

  /** An included message always belongs to a deviation with all three levels present, whose product clears the threshold. */
  lemma IncludedHasFullPriority(dev: RawDeviation, m: RawMessage)
    requires ShouldInclude(dev, m)
    ensures dev.priority.Some?
    ensures var p := dev.priority.value;
            p.importance.Some? && p.influence.Some? && p.urgency.Some?
            && p.importance.value * p.influence.value * p.urgency.value > PRIORITY_THRESHOLD
  {
  }

  /** The threshold is strict, and the language test is exact. */
  lemma ThresholdExamples()
    ensures PriorityScore(RawPriority(Some(4), Some(3), Some(3))) == 36
    ensures PriorityScore(RawPriority(Some(4), Some(3), Some(2))) == 24
    ensures ShouldInclude(RawDeviation(Some(RawPriority(Some(4), Some(3), Some(3))), None), RawMessage(None, None, Some("sv")))
    ensures !ShouldInclude(RawDeviation(Some(RawPriority(Some(4), Some(3), Some(3))), None), RawMessage(None, None, Some("en")))
    ensures !ShouldInclude(RawDeviation(Some(RawPriority(Some(5), Some(7), Some(1))), None), RawMessage(None, None, Some("sv")))
    ensures !ShouldInclude(RawDeviation(Some(RawPriority(Some(4), Some(3), Some(2))), None), RawMessage(None, None, Some("sv")))
  {
  }

  /** A qualifying message that lacks its header or details: reading it raises KeyError. */
  predicate Aborts(dev: RawDeviation, m: RawMessage) {
    ShouldInclude(dev, m) && (m.header.None? || m.details.None?)
  }

  /** Message `m` produces disruption `d`. */
  predicate Yields(m: RawMessage, d: Disruption) {
    m.header == Some(d.header) && m.details == Some(d.details)
  }

  /**
   * The inner loop of parse_deviation_data over the remaining variants `vs`
   * of `dev`. A KeyError ends the whole loop, so an aborting message drops
   * itself and every variant after it, but not those before it.
   */
  function VariantMessages(dev: RawDeviation, vs: seq<RawMessage>): (r: seq<Disruption>)
    ensures |r| <= |vs|
    ensures forall d :: d in r ==> exists m :: m in vs && ShouldInclude(dev, m) && Yields(m, d)
  {
    if |vs| == 0 then []
    else
      var m := vs[0];
      var rest := VariantMessages(dev, vs[1..]);
      assert forall m' :: m' in vs[1..] ==> m' in vs;
      if !ShouldInclude(dev, m) then rest
      else
        match (m.header, m.details)
        case (Some(h), Some(t)) => [Disruption(h, t)] + rest
        case _ => []
  }

  /** An aborting message hides every variant after it, whatever they are. */
  lemma {:induction false} AbortDropsRest(dev: RawDeviation, before: seq<RawMessage>, m: RawMessage, after: seq<RawMessage>)
    requires Aborts(dev, m)
    ensures VariantMessages(dev, before + [m] + after) == VariantMessages(dev, before)
    decreases |before|
  {
    if |before| == 0 {
      assert before + [m] + after == [m] + after;
      assert ([m] + after)[0] == m;
    } else {
      var whole := before + [m] + after;
      assert whole[0] == before[0];
      assert whole[1..] == before[1..] + [m] + after;
      AbortDropsRest(dev, before[1..], m, after);
    }
  }

  /** The disruption a message contributes when nothing aborts. */
  function Selected(dev: RawDeviation): RawMessage -> Option<Disruption> {
    m => if ShouldInclude(dev, m) && m.header.Some? && m.details.Some?
         then Some(Disruption(m.header.value, m.details.value))
         else None
  }

  /** Without an aborting message, the variants are simply filtered: every qualifying one is shown, in order. */
  lemma {:induction false} NoAbortIsFilter(dev: RawDeviation, vs: seq<RawMessage>)
    requires forall i :: 0 <= i < |vs| ==> !Aborts(dev, vs[i])
    ensures VariantMessages(dev, vs) == FilterMap(vs, Selected(dev))
    decreases |vs|
  {
    if |vs| > 0 {
      assert !Aborts(dev, vs[0]);
      assert forall i :: 0 <= i < |vs[1..]| ==> vs[1..][i] == vs[i + 1];
      NoAbortIsFilter(dev, vs[1..]);
    }
  }

  /** The messages one deviation contributes; a missing `message_variants` key reads as an empty array. */
  function DeviationMessages(dev: RawDeviation): (r: seq<Disruption>)
    ensures forall d :: d in r ==> exists m :: m in dev.variants.GetOr([]) && ShouldInclude(dev, m) && Yields(m, d)
  {
    VariantMessages(dev, dev.variants.GetOr([]))
  }

  /** parse_deviation_data: the disruptions of every deviation, in deviation-then-variant order. */
  function ParseDeviations(payload: DeviationPayload): (r: seq<Disruption>)
    ensures payload.NotAnArray? ==> r == []
    ensures payload.Array? ==> forall d :: d in r ==>
              exists dev :: dev in payload.items && d in DeviationMessages(dev)
  {
    match payload
    case NotAnArray => []
    case Array(items) =>
      var r := FlatMap(items, DeviationMessages);
      assert forall d :: d in r ==> exists dev :: dev in items && d in DeviationMessages(dev) by {
        forall d | d in r
          ensures exists dev :: dev in items && d in DeviationMessages(dev)
        {
          FlatMapMembers(items, DeviationMessages, d);
          var i :| 0 <= i < |items| && d in DeviationMessages(items[i]);
          assert items[i] in items;
        }
      }
      r
  }

  /** Deviations are handled independently: an abort in one never affects another. */
  lemma DeviationsIndependent(a: seq<RawDeviation>, b: seq<RawDeviation>)
    ensures ParseDeviations(Array(a + b)) == ParseDeviations(Array(a)) + ParseDeviations(Array(b))
  {
    FlatMapAppend(a, b, DeviationMessages);
  }
}
