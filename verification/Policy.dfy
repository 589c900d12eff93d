/**
 What the bridge decides by (src/bridge/policy.rs): the delay to the next poll, the vetting of a
 level, and the graces of a battery that is silent or missing.
 */
module Policy {
  import opened Prelude

  const NATIVE_TICK: nat := SECOND
  const UNANSWERED_RETRY: nat := 3 * SECOND
  const MAX_PLAUSIBLE_STEP: nat := 15
  const CONFIRM_TOLERANCE: nat := 5

  datatype Config = Config(interval: nat, offlineGrace: nat, missingGrace: nat)

  /** A level, and whether the headset is on the cable. */
  datatype Reading = Reading(percent: nat, charging: bool)

  /** The delay to the next poll. */
  function NextDelay(unanswered: bool, native: bool, config: Config): nat {
    var regular := if native then NATIVE_TICK else config.interval;
    if unanswered then Min(UNANSWERED_RETRY, regular) else regular
  }

  /** A clock runs from the first of the polls in a row that were not fine. */
  function Note(since: Option<nat>, fine: bool, now: nat): Option<nat> {
    if fine then None else if since.Some? then since else Some(now)
  }

  datatype Withdrawal = Keep | Silent | Missing

  /** Whether a battery stays, and if not, which of the two graces is over. */
  function Withdraw(silentFor: nat, missingFor: nat, config: Config): Withdrawal {
    if missingFor > 0 then
      if missingFor > config.missingGrace then Missing else Keep
    else if silentFor > config.offlineGrace then
      Silent
    else
      Keep
  }

  /** What was deferred, unless the sample at hand is that very one. */
  function SecondOpinion(deferred: Option<nat>, deferredSample: Option<nat>, sample: Option<nat>): Option<nat> {
    if sample.Some? && sample == deferredSample then None else deferred
  }

  datatype Verdict = Accept | Defer | Hold

  /** Vets a candidate against the reading last published and the one deferred, if any. */
  function Vet(published: Reading, candidate: Reading, deferred: Option<nat>): Verdict {
    if AbsDiff(published.percent, candidate.percent) > MAX_PLAUSIBLE_STEP then
      if deferred.Some? && AbsDiff(deferred.value, candidate.percent) <= CONFIRM_TOLERANCE then Accept else Defer
    else if !candidate.charging && !published.charging && candidate.percent > published.percent then
      Hold
    else
      Accept
  }

  /** What vetting remembers from one reading to the next. */
  datatype Record = Record(deferred: Option<nat>, deferredSample: Option<nat>, held: Option<nat>)

  const NO_RECORD: Record := Record(None, None, None)

  /**
   Vets a reading against the one shown, and says what is remembered of it and what is to be
   shown: nothing new for a reading that is deferred, and the known one again for one held.
   */
  function Vetted(record: Record, known: Reading, reading: Reading, sample: Option<nat>): (Record, Option<Reading>) {
    match Vet(known, reading, SecondOpinion(record.deferred, record.deferredSample, sample))
    case Defer => (Record(Some(reading.percent), sample, record.held), None)
    case Hold => (Record(None, None, Some(reading.percent)), Some(known))
    case Accept => (Record(None, None, None), Some(reading))
  }

  /**
   The native reader is polled every second whatever happens; another one at the interval, and
   within three seconds while a battery is unanswered.
   */
  lemma UnansweredIsRetriedSoon(native: bool, config: Config)
    ensures NextDelay(true, native, config) <= UNANSWERED_RETRY
    ensures NextDelay(true, native, config) <= NextDelay(false, native, config)
    ensures NextDelay(true, native, config) == NextDelay(false, native, config)
            || NextDelay(true, native, config) == UNANSWERED_RETRY
    ensures native ==> NextDelay(true, native, config) == NextDelay(false, native, config) == SECOND
    ensures !native ==> NextDelay(false, native, config) == config.interval
  {
  }

  /**
   The offline grace withdraws a battery that is missing exactly on the first poll that misses
   it, and then only if it had been silent for longer than that while it was still listed.
   */
  lemma OfflineGraceOfAMissingHeadset(silentSince: nat, missingSince: nat, now: nat, config: Config)
    requires silentSince <= missingSince <= now
    ensures Withdraw(Since(now, silentSince), Since(now, missingSince), config) == Silent
       <==> now == missingSince && now - silentSince > config.offlineGrace
  {
  }
}
