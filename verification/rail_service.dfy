/**
 * The record normaliser of `get_live_arrivals`: every raw service of the
 * rail feed becomes one train-status record (origin, time pair, delay,
 * status and refund flag). The HTTP fetch is not part of this model: the
 * parsed `trainServices` value is the input.
 */
module RailService {
  import opened Wrappers
  import opened Clock

  /** A JSON key that is absent, present with `null`, or present with a value. */
  datatype Field<+T> = Missing | Null | Given(value: T) {

    /** Python's `dict.get(key, default)`: the default only when the key is absent. */
    function Get(default: T): (r: Option<T>)
      ensures Missing? ==> r == Some(default)
      ensures Null? ==> r == None
      ensures Given? ==> r == Some(value)
    {
      match this
      case Missing => Some(default)
      case Null => None
      case Given(v) => Some(v)
    }
  }

  /** One entry of a service's `origin` list. */
  datatype Location = Location(crs: Option<string>, locationName: Option<string>)

  /**
   * One raw service of the feed. `origin` is the origin list, with an absent
   * or `null` key read as the empty list; the other optional keys are read
   * with `.get`, so `None` stands for both absent and `null`, except for
   * `operator` and `length` whose defaults make the difference visible.
   */
  datatype RawService = RawService(
    origin: seq<Location>,
    sta: Option<string>,
    eta: Option<string>,
    std: Option<string>,
    etd: Option<string>,
    operator: Field<string>,
    platform: Option<string>,
    length: Field<int>,
    delayReason: Option<string>,
    serviceId: Option<string>)

  datatype Status = OnTime | Delayed | Cancelled {
    /** The status string the service emits. */
    function Label(): string {
      match this
      case OnTime => "On Time"
      case Delayed => "Delayed"
      case Cancelled => "Cancelled"
    }
  }

  /** One normalised train record. */
  datatype TrainStatus = TrainStatus(
    fromCode: Option<string>,
    fromName: Option<string>,
    originCity: Option<string>,
    scheduled: Option<string>,
    estimated: Option<string>,
    status: Status,
    delayWeight: int,
    platform: Option<string>,
    operator: Option<string>,
    refundEligible: bool,
    length: Option<int>,
    delayReason: Option<string>,
    trainId: Option<string>)

  /** The delay verdict for one service. */
  datatype Delay = Delay(status: Status, minutes: int)

  const UnknownCode: string := "UNK"
  const UnknownName: string := "Unknown Origin"

  /** Estimated-time sentinels of the feed. */
  const CancelledSentinel: string := "Cancelled"
  const OnTimeSentinel: string := "On time"

  /** Delay charged to a cancelled service. */
  const CancellationPenalty: int := 60

  /** Delay from which a service on a listed operator is refund eligible. */
  const RefundThreshold: int := 15

  /** Operators whose services the refund radar flags. */
  const RefundOperators: seq<string> := ["Northern", "LNER", "TransPennine Express"]

  /** Station code and name a record is reported from. */
  function OriginOf(origin: seq<Location>): (r: (Option<string>, Option<string>))
    ensures origin == [] ==> r == (Some(UnknownCode), Some(UnknownName))
    ensures origin != [] ==> r == (origin[0].crs, origin[0].locationName)
  {
    if origin != [] then (origin[0].crs, origin[0].locationName)
    else (Some(UnknownCode), Some(UnknownName))
  }

  /**
   * The (scheduled, estimated) pair: the arrival pair, or the departure
   * pair when the scheduled arrival is absent or empty. The estimated
   * arrival is dropped in the second case even when it was present.
   */
  function SelectTimes(raw: RawService): (r: (Option<string>, Option<string>))
    ensures Truthy(raw.sta) ==> r == (raw.sta, raw.eta)
    ensures !Truthy(raw.sta) ==> r == (raw.std, raw.etd)
  {
    if Truthy(raw.sta) then (raw.sta, raw.eta) else (raw.std, raw.etd)
  }

  /**
   * Status and delay from the selected time pair. The sentinels come first;
   * then, when both strings contain ':' and both parse as times of day, the
   * midnight-corrected difference; anything else is on time with no delay.
   */
  function ClassifyDelay(scheduled: Option<string>, estimated: Option<string>): (r: Delay)
    ensures 0 <= r.minutes < MinutesPerDay
    ensures r.status == Cancelled <==> estimated == Some(CancelledSentinel)
    ensures r.status == Cancelled ==> r.minutes == CancellationPenalty
    ensures r.status == OnTime ==> r.minutes == 0
    ensures r.status == Delayed ==> r.minutes > 0
    ensures estimated == Some(OnTimeSentinel) ==> r == Delay(OnTime, 0)
    ensures estimated != Some(CancelledSentinel) && estimated != Some(OnTimeSentinel) ==>
      if scheduled.Some? && estimated.Some?
         && ParseClock(scheduled.value).Some? && ParseClock(estimated.value).Some?
      then r.minutes == ClockDelay(ParseClock(scheduled.value).value, ParseClock(estimated.value).value)
      else r == Delay(OnTime, 0)
  {
    if estimated == Some(CancelledSentinel) then Delay(Cancelled, CancellationPenalty)
    else if estimated == Some(OnTimeSentinel) then Delay(OnTime, 0)
    else if Truthy(estimated) && ':' in estimated.value && Truthy(scheduled) && ':' in scheduled.value then
      match (ParseClock(scheduled.value), ParseClock(estimated.value))
      case (Some(s), Some(e)) =>
        var d := ClockDelay(s, e);
        if d > 0 then Delay(Delayed, d) else Delay(OnTime, 0)
      case _ => Delay(OnTime, 0)
    else Delay(OnTime, 0)
  }

  /**
   * The status string names the status: the scorer's test of a record's
   * status against "Cancelled" picks out exactly the cancelled records.
   */
  lemma LabelNamesStatus(s: Status, other: Status)
    ensures s.Label() == CancelledSentinel <==> s == Cancelled
    ensures s.Label() == other.Label() <==> s == other
  {
  }

  /** The refund radar: a delay of at least 15 minutes on a listed operator. */
  predicate RefundEligible(minutes: int, operator: Option<string>) {
    minutes >= RefundThreshold && operator.Some? && operator.value in RefundOperators
  }

  /** The loop body of `get_live_arrivals`: one raw service, one record. */
  function NormaliseRecord(raw: RawService): (t: TrainStatus)
    // origin fallback
    ensures raw.origin == [] ==> t.fromCode == Some(UnknownCode) && t.fromName == Some(UnknownName)
    ensures raw.origin != [] ==> t.fromCode == raw.origin[0].crs && t.fromName == raw.origin[0].locationName
    ensures t.originCity == t.fromName
    // time pair
    ensures Truthy(raw.sta) ==> t.scheduled == raw.sta && t.estimated == raw.eta
    ensures !Truthy(raw.sta) ==> t.scheduled == raw.std && t.estimated == raw.etd
    // delay and status
    ensures 0 <= t.delayWeight < MinutesPerDay
    ensures t.status == Cancelled <==> t.estimated == Some(CancelledSentinel)
    ensures t.status == Cancelled ==> t.delayWeight == CancellationPenalty
    ensures t.status == OnTime ==> t.delayWeight == 0
    ensures t.status == Delayed ==> t.delayWeight > 0
    ensures Delay(t.status, t.delayWeight) == ClassifyDelay(t.scheduled, t.estimated)
    // refund radar
    ensures t.operator == raw.operator.Get("")
    ensures t.refundEligible <==>
      t.delayWeight >= 15 && t.operator.Some? && t.operator.value in ["Northern", "LNER", "TransPennine Express"]
    // passthrough
    ensures t.platform == raw.platform && t.delayReason == raw.delayReason && t.trainId == raw.serviceId
    ensures t.length == raw.length.Get(0)
  {
    var (code, name) := OriginOf(raw.origin);
    var (scheduled, estimated) := SelectTimes(raw);
    var delay := ClassifyDelay(scheduled, estimated);
    var operator := raw.operator.Get("");
    TrainStatus(
      code, name, name,
      scheduled, estimated,
      delay.status, delay.minutes,
      raw.platform, operator,
      RefundEligible(delay.minutes, operator),
      raw.length.Get(0), raw.delayReason, raw.serviceId)
  }

  /** The loop of `get_live_arrivals`: one record per service, in feed order. */
  function NormaliseAll(services: seq<RawService>): (ts: seq<TrainStatus>)
    ensures |ts| == |services|
    ensures forall i :: 0 <= i < |services| ==> ts[i] == NormaliseRecord(services[i])
  {
    if services == [] then []
    else [NormaliseRecord(services[0])] + NormaliseAll(services[1..])
  }

  /**
   * `get_live_arrivals` after the fetch: a missing (`None`) or empty
   * `trainServices` list yields no records.
   */
  function NormaliseFeed(trainServices: Option<seq<RawService>>): (ts: seq<TrainStatus>)
    ensures trainServices.None? ==> ts == []
    ensures trainServices.Some? ==> |ts| == |trainServices.value|
    ensures trainServices.Some? ==>
      forall i :: 0 <= i < |ts| ==> ts[i] == NormaliseRecord(trainServices.value[i])
  {
    match trainServices
    case None => []
    case Some(services) => if services == [] then [] else NormaliseAll(services)
  }

  /** The delay and status invariant every normalised record keeps. */
  predicate WellFormed(t: TrainStatus) {
    && 0 <= t.delayWeight < MinutesPerDay
    && (t.status == Cancelled ==> t.delayWeight == CancellationPenalty)
    && (t.status == OnTime ==> t.delayWeight == 0)
    && (t.status == Delayed ==> t.delayWeight > 0)
  }

  lemma FeedWellFormed(trainServices: Option<seq<RawService>>)
    ensures forall t :: t in NormaliseFeed(trainServices) ==> WellFormed(t)
  {
  }

  /** Normalising two feeds one after the other is normalising their concatenation. */
  lemma {:induction false} NormaliseAllAppend(a: seq<RawService>, b: seq<RawService>)
    ensures NormaliseAll(a + b) == NormaliseAll(a) + NormaliseAll(b)
  {
    if a == [] {
      assert a + b == b;
    } else {
      assert (a + b)[1..] == a[1..] + b;
      NormaliseAllAppend(a[1..], b);
    }
  }

  // ---- Concrete cases ----

  /** 23:50 scheduled, 00:05 estimated: fifteen minutes late across midnight. */
  lemma MidnightRollover()
    ensures ClassifyDelay(Some("23:50"), Some("00:05")) == Delay(Delayed, 15)
  {
  }

  /**
   * The correction only works forwards: an estimate seven minutes before
   * midnight for a 00:05 service reads as 1433 minutes late.
   */
  lemma EarlyAcrossMidnightReadsLate()
    ensures ClassifyDelay(Some("00:05"), Some("23:58")) == Delay(Delayed, 1433)
  {
  }

  /** The refund threshold is inclusive and the operator list is closed. */
  lemma RefundRadarExamples()
    ensures RefundEligible(15, Some("LNER"))
    ensures !RefundEligible(14, Some("LNER"))
    ensures !RefundEligible(20, Some("CrossCountry"))
  {
  }

  /** A missing operator defaults to "", which is never refund eligible. */
  lemma MissingOperatorNeverEligible(raw: RawService)
    requires raw.operator.Missing?
    ensures !NormaliseRecord(raw).refundEligible
  {
  }

  /** A cancelled service on a listed operator is refund eligible. */
  lemma CancelledListedOperatorEligible(raw: RawService)
    requires raw.operator.Given? && raw.operator.value in RefundOperators
    requires NormaliseRecord(raw).status == Cancelled
    ensures NormaliseRecord(raw).refundEligible
  {
  }
}
